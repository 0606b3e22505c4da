/**
  The group handlers statement by statement (handlers/groups.go). Update, join, leave, invite,
  respond and kick read the rows, decide, and write in a later statement; other requests may come
  in between. Each write keeps its own guard: an update asks for the owner, an upsert never
  overwrites a ban, a deletion asks for nothing. What the atomic model promises is here proved to
  hold exactly when no write comes too late.
 */
module GroupRaces {
  import opened Common
  import opened Groups
  import Runs

  type Session = nat

  datatype Write =
    | Show(group: GroupId, user: UserId, visibility: Visibility)
    | Put(group: GroupId, user: UserId, role: Role)
    | Remove(group: GroupId, user: UserId)

  /** `pending` are the writes of handlers that have passed their checks. */
  datatype Races = Races(base: State, pending: map<Session, Write>)

  datatype Move =
    | Whole(event: Event)
    | Check(session: Session, event: Event)
    | Commit(session: Session, now: int)

  /** The write a handler has decided on. */
  function WriteOf(e: Event): Option<Write> {
    match e
    case Update(u, g, v) => Some(Show(g, u, v))
    case Join(u, g, _) => Some(Put(g, u, Member))
    case Leave(u, g) => Some(Remove(g, u))
    case Invite(_, g, t, _, _) => Some(Put(g, t, Invited))
    case Respond(u, g, accept, _) => Some(if accept then Put(g, u, Member) else Remove(g, u))
    case Kick(_, g, t, ban, _) => Some(if ban then Put(g, t, Banned) else Remove(g, t))
    case _ => None
  }

  /** A row cannot be inserted for a group that is gone; the other statements then find nothing. */
  function Written(s: State, w: Write, now: int): State {
    match w
    case Show(g, u, v) =>
      if g in s.groups && s.groups[g].owner == u then s.(groups := s.groups[g := s.groups[g].(visibility := v)]) else s
    case Put(g, u, role) => if g in s.groups then s.(members := Upserted(s.members, g, u, role, now)) else s
    case Remove(g, u) => s.(members := s.members - {(g, u)})
  }

  /** An update's check does not ask for the owner; its write does. */
  predicate Passes(s: State, e: Event) {
    if e.Update? then
      && e.user in s.joined && e.group in s.groups
      && !(s.groups[e.group].visibility == Private && e.visibility == Public)
    else Enabled(s, e)
  }

  predicate CanMove(x: Races, m: Move) {
    match m
    case Whole(_) => true
    case Check(session, e) => session !in x.pending && WriteOf(e).Some? && Passes(x.base, e)
    case Commit(session, _) => session in x.pending
  }

  function After(x: Races, m: Move): Races {
    if !CanMove(x, m) then x else
    match m
    case Whole(e) => x.(base := Step(x.base, e))
    case Check(session, e) => x.(pending := x.pending[session := WriteOf(e).value])
    case Commit(session, now) => Races(Written(x.base, x.pending[session], now), x.pending - {session})
  }

  function Time(e: Event): int {
    match e
    case Join(_, _, now) => now
    case Invite(_, _, _, _, now) => now
    case Respond(_, _, _, now) => now
    case Kick(_, _, _, _, now) => now
    case _ => 0
  }

  /** Undisturbed, a handler is its check and its write. */
  lemma UndisturbedHandler(x: Races, session: Session, e: Event)
    requires Known(x.base) && session !in x.pending && WriteOf(e).Some?
    ensures After(After(x, Check(session, e)), Commit(session, Time(e))) == After(x, Whole(e))
  {
  }

  // ---------------------------------------------------------------- what every move keeps

  ghost predicate Sane(x: Races) {
    && Known(x.base)
    && forall session :: session in x.pending && x.pending[session].Put? ==> x.pending[session].role != Owner
  }

  lemma MoveKeepsSane(x: Races, m: Move)
    requires Sane(x)
    ensures Sane(After(x, m))
  {
    if m.Whole? {
      StepKeepsKnown(x.base, m.event);
    }
  }

  predicate Writes(x: Races, m: Move) {
    m.Commit? && m.session in x.pending
  }

  // ---------------------------------------------------------------- one owner

  /** A write to the row of someone who has become the group's owner since the check. */
  predicate Demotes(x: Races, m: Move) {
    && Writes(x, m) && !x.pending[m.session].Show?
    && x.pending[m.session].group in x.base.groups
    && x.pending[m.session].user == x.base.groups[x.pending[m.session].group].owner
  }

  lemma DemotionBreaks(x: Races, m: Move)
    requires Sane(x) && OwnerRows(x.base) && Demotes(x, m)
    ensures !OwnerRows(After(x, m).base)
  {
    var w := x.pending[m.session];
    assert Is(x.base.members, w.group, w.user, Owner);
    assert !Is(After(x, m).base.members, w.group, w.user, Owner);
    assert w.group in After(x, m).base.groups;
  }

  lemma ShowKeepsOwnerRows(s: State, w: Write, now: int)
    requires OwnerRows(s) && w.Show?
    ensures OwnerRows(Written(s, w, now))
  {
    var s' := Written(s, w, now);
    forall g | g in s'.groups ensures Is(s'.members, g, s'.groups[g].owner, Owner) {
      assert Is(s.members, g, s.groups[g].owner, Owner);
    }
  }

  lemma OtherwiseOwnerRows(x: Races, m: Move)
    requires Sane(x) && OwnerRows(x.base) && !Demotes(x, m)
    ensures OwnerRows(After(x, m).base)
  {
    if m.Whole? {
      StepKeepsOwnerRows(x.base, m.event);
    } else if Writes(x, m) {
      var w := x.pending[m.session];
      if w.Show? {
        ShowKeepsOwnerRows(x.base, w, m.now);
      } else {
        RowKeepsOwnerRows(x.base, After(x, m).base, w.group, w.user);
      }
    }
  }

  /**
    Main result: throughout a run every group has exactly one owner row, its owner's, if and only
    if no late write hits the row of somebody who has succeeded to the group since its check.
   */
  lemma OwnerRowsIff(x: Races, moves: seq<Move>)
    requires Sane(x) && OwnerRows(x.base)
    ensures Runs.AlwaysGood(After, (y: Races) => OwnerRows(y.base), x, moves)
       <==> Runs.NeverBad(After, Demotes, x, moves)
  {
    forall y, m | Sane(y)
      ensures Sane(After(y, m)) && (OwnerRows(y.base) ==> (OwnerRows(After(y, m).base) <==> !Demotes(y, m)))
    {
      MoveKeepsSane(y, m);
      if OwnerRows(y.base) && Demotes(y, m) {
        DemotionBreaks(y, m);
      } else if OwnerRows(y.base) {
        OtherwiseOwnerRows(y, m);
      }
    }
    Runs.AlwaysGoodIff(After, y => Sane(y), (y: Races) => OwnerRows(y.base), Demotes, x, moves);
  }

  /** The failing case is real: a second join of somebody who has meanwhile succeeded to the group. */
  lemma LateJoinDemotes(x: Races, session: Session, g: GroupId, u: UserId, owner: UserId,
                        heirs: map<GroupId, UserId>, now: int)
    requires Sane(x) && OwnerRows(x.base) && session !in x.pending && Passes(x.base, Join(u, g, now))
    requires g in x.base.groups && x.base.groups[g].owner == owner != u
    requires var joined := Step(x.base, Join(u, g, now));
             && HasHeir(joined.members, g, owner) && Enabled(joined, Erase(owner, heirs))
             && g in heirs && heirs[g] == u
    ensures var x3 := After(After(After(x, Check(session, Join(u, g, now))), Whole(Join(u, g, now))),
                            Whole(Erase(owner, heirs)));
            OwnerRows(x3.base) && x3.base.groups[g].owner == u && !OwnerRows(After(x3, Commit(session, now)).base)
  {
    var x1 := After(x, Check(session, Join(u, g, now)));
    var x2 := After(x1, Whole(Join(u, g, now)));
    var x3 := After(x2, Whole(Erase(owner, heirs)));
    OtherwiseOwnerRows(x1, Whole(Join(u, g, now)));
    MoveKeepsSane(x1, Whole(Join(u, g, now)));
    OtherwiseOwnerRows(x2, Whole(Erase(owner, heirs)));
    MoveKeepsSane(x2, Whole(Erase(owner, heirs)));
    assert PassedOn(x2.base, owner, g) && x3.base.groups[g].owner == u;
    DemotionBreaks(x3, Commit(session, now));
  }

  // ---------------------------------------------------------------- bans

  predicate BannedOrGone(x: Races, g: GroupId, u: UserId) {
    Is(x.base.members, g, u, Banned) || g !in x.base.groups
  }

  /** The two ways out of a ban, and a deletion decided on before it. */
  predicate Unbans(x: Races, m: Move, g: GroupId, u: UserId) {
    && Is(x.base.members, g, u, Banned)
    && ((m.Whole? && Lifts(x.base, m.event, g, u) && !(m.event.Erase? && DiesWith(x.base, u, g)))
        || (Writes(x, m) && x.pending[m.session] == Remove(g, u)))
  }

  ghost predicate SaneFor(x: Races, g: GroupId) {
    Sane(x) && g in x.base.used
  }

  lemma UnbanningLifts(x: Races, m: Move, g: GroupId, u: UserId)
    requires SaneFor(x, g) && Unbans(x, m, g, u)
    ensures !BannedOrGone(After(x, m), g, u)
  {
    assert (g, u) in x.base.members && g in x.base.groups;
  }

  lemma OtherwiseBanned(x: Races, m: Move, g: GroupId, u: UserId)
    requires SaneFor(x, g) && BannedOrGone(x, g, u) && !Unbans(x, m, g, u)
    ensures BannedOrGone(After(x, m), g, u)
  {
    if m.Whole? && Is(x.base.members, g, u, Banned) && !Lifts(x.base, m.event, g, u) {
      StepKeepsBan(x.base, m.event, g, u);
    }
  }

  /**
    Main result: a banned user stays banned as long as the group exists, if and only if nobody
    lifts the ban and no deletion of their row was decided on before it. Late joins, acceptances
    and invitations cannot undo it.
   */
  lemma BanHoldsIff(x: Races, moves: seq<Move>, g: GroupId, u: UserId)
    requires SaneFor(x, g) && BannedOrGone(x, g, u)
    ensures Runs.AlwaysGood(After, y => BannedOrGone(y, g, u), x, moves)
       <==> Runs.NeverBad(After, (y, m) => Unbans(y, m, g, u), x, moves)
  {
    forall y, m | SaneFor(y, g)
      ensures SaneFor(After(y, m), g)
      ensures BannedOrGone(y, g, u) ==> (BannedOrGone(After(y, m), g, u) <==> !Unbans(y, m, g, u))
    {
      MoveKeepsSane(y, m);
      if Unbans(y, m, g, u) {
        UnbanningLifts(y, m, g, u);
      } else if BannedOrGone(y, g, u) {
        OtherwiseBanned(y, m, g, u);
      }
    }
    Runs.AlwaysGoodIff(After, y => SaneFor(y, g), y => BannedOrGone(y, g, u), (y, m) => Unbans(y, m, g, u), x, moves);
  }

  /** The failing case is real: a member decides to leave, is banned, and the deletion takes the ban with it. */
  lemma LateLeaveLiftsBan(x: Races, session: Session, g: GroupId, u: UserId, owner: UserId, now: int)
    requires SaneFor(x, g) && session !in x.pending && u in x.base.joined && Is(x.base.members, g, u, Member)
    requires owner in x.base.joined && owner != u && Is(x.base.members, g, owner, Owner)
    ensures var banned := After(After(x, Check(session, Leave(u, g))), Whole(Kick(owner, g, u, true, now)));
            && Is(banned.base.members, g, u, Banned)
            && !BannedOrGone(After(banned, Commit(session, now)), g, u)
  {
    var x1 := After(x, Check(session, Leave(u, g)));
    var x2 := After(x1, Whole(Kick(owner, g, u, true, now)));
    assert x1.base == x.base && x1.pending[session] == Remove(g, u);
    assert Enabled(x1.base, Kick(owner, g, u, true, now));
    assert (g, u) in x.base.members && g in x2.base.groups;
  }

  // ---------------------------------------------------------------- private groups

  /** Gone, or private with at most `bound` members. */
  predicate PrivateOrGone(x: Races, g: GroupId, bound: nat) {
    g in x.base.groups ==> x.base.groups[g].visibility == Private && |Seats(x.base.members, g)| <= bound
  }

  /** A late update that shows the group, or a late acceptance or join when all seats are taken. */
  predicate Exposes(x: Races, m: Move, g: GroupId, bound: nat) {
    && Writes(x, m) && g in x.base.groups
    && match x.pending[m.session]
       case Show(h, u, v) => h == g && u == x.base.groups[g].owner && v == Public
       case Put(h, u, role) =>
         && h == g && role == Member && |Seats(x.base.members, g)| >= bound
         && !Active(x.base.members, g, u) && !Is(x.base.members, g, u, Banned)
       case Remove(_, _) => false
  }

  /** Writing one row changes one seat at most. */
  lemma SeatsAfterPut(m: Rows, g: GroupId, u: UserId, role: Role, now: int)
    requires role != Owner
    ensures var m' := Upserted(m, g, u, role, now);
            && (role == Member && !Is(m, g, u, Banned) ==> Seats(m', g) == Seats(m, g) + {u})
            && (role != Member || Is(m, g, u, Banned) ==> Seats(m', g) <= Seats(m, g))
  {
    var m' := Upserted(m, g, u, role, now);
    assert forall v :: v != u ==> ((g, v) in m' <==> (g, v) in m) && ((g, v) in m ==> m'[(g, v)] == m[(g, v)]);
    forall v ensures v in Seats(m', g) <==> (g, v) in m' && Active(m', g, v) {}
    forall v ensures v in Seats(m, g) <==> (g, v) in m && Active(m, g, v) {}
  }

  lemma SeatsElsewhere(m: Rows, h: GroupId, u: UserId, role: Role, now: int, g: GroupId)
    requires h != g
    ensures Seats(Upserted(m, h, u, role, now), g) == Seats(m, g)
  {
    var m' := Upserted(m, h, u, role, now);
    forall v ensures v in Seats(m', g) <==> v in Seats(m, g) {
      assert (g, v) in m' <==> (g, v) in m;
    }
  }

  lemma SeatsAfterRemove(m: Rows, k: (GroupId, UserId), g: GroupId)
    ensures Seats(m - {k}, g) <= Seats(m, g)
  {
  }

  lemma ExposureShows(x: Races, m: Move, g: GroupId, bound: nat)
    requires Sane(x) && PrivateOrGone(x, g, bound) && Exposes(x, m, g, bound)
    ensures !PrivateOrGone(After(x, m), g, bound)
  {
    var w := x.pending[m.session];
    if w.Put? {
      SeatsAfterPut(x.base.members, g, w.user, w.role, m.now);
      assert w.user !in Seats(x.base.members, g);
      assert |Seats(x.base.members, g) + {w.user}| == |Seats(x.base.members, g)| + 1;
    }
  }

  /** A row in this group takes a free seat, or none. */
  lemma PutKeepsBound(m: Rows, g: GroupId, u: UserId, role: Role, now: int, bound: nat)
    requires role != Owner && |Seats(m, g)| <= bound
    requires role == Member && !Active(m, g, u) && !Is(m, g, u, Banned) ==> |Seats(m, g)| < bound
    ensures |Seats(Upserted(m, g, u, role, now), g)| <= bound
  {
    var seats, seats' := Seats(m, g), Seats(Upserted(m, g, u, role, now), g);
    SeatsAfterPut(m, g, u, role, now);
    if role != Member || Is(m, g, u, Banned) {
      SubsetSize(seats', seats);
    } else if Active(m, g, u) {
      assert (g, u) in m && u in seats;
      assert seats + {u} == seats;
    }
  }

  lemma WriteKeepsPrivate(x: Races, m: Move, g: GroupId, bound: nat)
    requires Sane(x) && PrivateOrGone(x, g, bound) && Writes(x, m) && !Exposes(x, m, g, bound) && g in x.base.groups
    ensures PrivateOrGone(After(x, m), g, bound)
  {
    match x.pending[m.session] {
      case Show(_, _, _) =>
      case Remove(h, u) =>
        SeatsAfterRemove(x.base.members, (h, u), g);
        SubsetSize(Seats(After(x, m).base.members, g), Seats(x.base.members, g));
      case Put(h, u, role) =>
        if h == g {
          PutKeepsBound(x.base.members, g, u, role, m.now, bound);
        } else {
          SeatsElsewhere(x.base.members, h, u, role, m.now, g);
        }
    }
  }

  lemma OtherwisePrivate(x: Races, m: Move, g: GroupId, bound: nat)
    requires SaneFor(x, g) && PRIVATE_CAP <= bound && PrivateOrGone(x, g, bound) && !Exposes(x, m, g, bound)
    ensures PrivateOrGone(After(x, m), g, bound)
  {
    if g in x.base.groups && Writes(x, m) {
      WriteKeepsPrivate(x, m, g, bound);
    } else if g in After(x, m).base.groups && m.Whole? {
      assert g in x.base.groups;
      StepKeepsPrivate(x.base, m.event, g);
      SubsetSize(Seats(After(x, m).base.members, g) * Seats(x.base.members, g), Seats(x.base.members, g));
      if Full(x.base, g) {
        SubsetSize(Seats(After(x, m).base.members, g), Seats(x.base.members, g));
      }
    }
  }

  /**
    Main result: a private group stays private and within its bound, if and only if no late update
    shows it and no late write seats somebody beyond it.
   */
  lemma PrivateIff(x: Races, moves: seq<Move>, g: GroupId, bound: nat)
    requires SaneFor(x, g) && PRIVATE_CAP <= bound && PrivateOrGone(x, g, bound)
    ensures Runs.AlwaysGood(After, y => PrivateOrGone(y, g, bound), x, moves)
       <==> Runs.NeverBad(After, (y, m) => Exposes(y, m, g, bound), x, moves)
  {
    forall y, m | SaneFor(y, g)
      ensures SaneFor(After(y, m), g)
      ensures PrivateOrGone(y, g, bound) ==> (PrivateOrGone(After(y, m), g, bound) <==> !Exposes(y, m, g, bound))
    {
      MoveKeepsSane(y, m);
      if PrivateOrGone(y, g, bound) && Exposes(y, m, g, bound) {
        ExposureShows(y, m, g, bound);
      } else if PrivateOrGone(y, g, bound) {
        OtherwisePrivate(y, m, g, bound);
      }
    }
    Runs.AlwaysGoodIff(After, y => SaneFor(y, g), y => PrivateOrGone(y, g, bound),
                       (y, m) => Exposes(y, m, g, bound), x, moves);
  }

  /** The failing case is real: of two updates, the one that hides the group is overtaken. */
  lemma LateUpdateShows(x: Races, session: Session, g: GroupId, now: int)
    requires session !in x.pending && g in x.base.groups && x.base.groups[g].owner in x.base.joined
    requires x.base.groups[g].visibility == Public
    ensures var owner := x.base.groups[g].owner;
            var hidden := After(After(x, Check(session, Update(owner, g, Public))), Whole(Update(owner, g, Private)));
            && g in hidden.base.groups && hidden.base.groups[g].visibility == Private
            && After(hidden, Commit(session, now)).base.groups[g].visibility == Public
  {
  }
}
