/**
  Social groups (handlers/groups.go, socialEraseWithQuerier in handlers/social.go): roles,
  visibility, the private cap, bans, and succession when an owner erases their profile. Each
  handler call is one event; an event its handler refuses changes nothing.
 */
module Groups {
  import opened Common

  type UserId = int
  type GroupId = int

  datatype Role = Member | Owner | Invited | Banned
  datatype Visibility = Private | Public
  datatype Group = Group(owner: UserId, visibility: Visibility)
  datatype Membership = Membership(role: Role, since: int)

  type Rows = map<(GroupId, UserId), Membership>

  /** `joined` are the users with a social profile, `used` the group ids ever handed out. */
  datatype State = State(groups: map<GroupId, Group>, members: Rows, joined: set<UserId>, used: set<GroupId>)

  const PRIVATE_CAP := 100

  /** `visible`: the target's handle resolves for the caller, that is, neither blocks the other. */
  datatype Event =
    | JoinSocial(user: UserId)
    | Create(user: UserId, group: GroupId, visibility: Visibility, now: int)
    | Update(user: UserId, group: GroupId, visibility: Visibility)
    | Delete(user: UserId, group: GroupId)
    | Join(user: UserId, group: GroupId, now: int)
    | Leave(user: UserId, group: GroupId)
    | Invite(user: UserId, group: GroupId, target: UserId, visible: bool, now: int)
    | Respond(user: UserId, group: GroupId, accept: bool, now: int)
    | Kick(user: UserId, group: GroupId, target: UserId, ban: bool, now: int)
    | Erase(user: UserId, heirs: map<GroupId, UserId>)

  // ---------------------------------------------------------------- reading rows

  predicate Is(m: Rows, g: GroupId, u: UserId, role: Role) {
    (g, u) in m && m[(g, u)].role == role
  }

  predicate Active(m: Rows, g: GroupId, u: UserId) {
    Is(m, g, u, Member) || Is(m, g, u, Owner)
  }

  /** The members that count. */
  function Seats(m: Rows, g: GroupId): set<UserId> {
    set k | k in m && k.0 == g && Active(m, g, k.1) :: k.1
  }

  predicate Full(s: State, g: GroupId) {
    g in s.groups && s.groups[g].visibility == Private && |Seats(s.members, g)| >= PRIVATE_CAP
  }

  /** INSERT ... ON CONFLICT DO UPDATE SET role: a ban is only ever overwritten by a ban. */
  function Upserted(m: Rows, g: GroupId, u: UserId, role: Role, now: int): Rows {
    if (g, u) !in m then m[(g, u) := Membership(role, now)]
    else if m[(g, u)].role == Banned && role != Banned then m
    else m[(g, u) := m[(g, u)].(role := role)]
  }

  /** The longest-tenured plain member other than the one leaving. */
  predicate IsHeir(m: Rows, g: GroupId, leaving: UserId, u: UserId) {
    && u != leaving && Is(m, g, u, Member)
    && (forall k :: k in m && k.0 == g && k.1 != leaving && m[k].role == Member ==> m[(g, u)].since <= m[k].since)
  }

  predicate HasHeir(m: Rows, g: GroupId, leaving: UserId) {
    exists k :: k in m && k.0 == g && k.1 != leaving && m[k].role == Member
  }

  // ---------------------------------------------------------------- the handlers

  /** The handler's guards, in one place per event. */
  predicate Enabled(s: State, e: Event) {
    match e
    case JoinSocial(_) => true
    case Create(u, g, _, _) => u in s.joined && g !in s.used
    case Update(u, g, v) => u in s.joined && g in s.groups && s.groups[g].owner == u
                            && !(s.groups[g].visibility == Private && v == Public)
    case Delete(u, g) => u in s.joined && g in s.groups && s.groups[g].owner == u
    case Join(u, g, _) => u in s.joined && g in s.groups && s.groups[g].visibility == Public
                          && !Active(s.members, g, u) && !Is(s.members, g, u, Banned)
    case Leave(u, g) => u in s.joined && (Is(s.members, g, u, Member) || Is(s.members, g, u, Invited))
    case Invite(u, g, t, visible, _) => u in s.joined && Active(s.members, g, u) && g in s.groups && !Full(s, g)
                                        && t in s.joined && t != u && visible && (g, t) !in s.members
    case Respond(u, g, accept, _) =>
      u in s.joined && Is(s.members, g, u, Invited) && g in s.groups && !(accept && Full(s, g))
    case Kick(u, g, t, _, _) => u in s.joined && Is(s.members, g, u, Owner) && t in s.joined && t != u
    case Erase(u, heirs) =>
      forall g :: g in s.groups && PassedOn(s, u, g) ==> g in heirs && IsHeir(s.members, g, u, heirs[g])
  }

  /** A group erased with its owner: private, or public without anyone to take over. */
  predicate DiesWith(s: State, u: UserId, g: GroupId) {
    g in s.groups && s.groups[g].owner == u && (s.groups[g].visibility == Private || !HasHeir(s.members, g, u))
  }

  predicate PassedOn(s: State, u: UserId, g: GroupId) {
    g in s.groups && s.groups[g].owner == u && s.groups[g].visibility == Public && HasHeir(s.members, g, u)
  }

  function Erased(s: State, u: UserId, heirs: map<GroupId, UserId>): State
    requires Enabled(s, Erase(u, heirs))
  {
    State(
      map g | g in s.groups && !DiesWith(s, u, g) ::
        if PassedOn(s, u, g) then s.groups[g].(owner := heirs[g]) else s.groups[g],
      map k | k in s.members && k.1 != u && !DiesWith(s, u, k.0) ::
        if PassedOn(s, u, k.0) && k.1 == heirs[k.0] then s.members[k].(role := Owner) else s.members[k],
      s.joined - {u},
      s.used)
  }

  function Without(s: State, g: GroupId): State {
    s.(groups := s.groups - {g}, members := map k | k in s.members && k.0 != g :: s.members[k])
  }

  function Step(s: State, e: Event): State {
    if !Enabled(s, e) then s else
    match e
    case JoinSocial(u) => s.(joined := s.joined + {u})
    case Create(u, g, v, now) =>
      s.(groups := s.groups[g := Group(u, v)], members := Upserted(s.members, g, u, Owner, now), used := s.used + {g})
    case Update(_, g, v) => s.(groups := s.groups[g := s.groups[g].(visibility := v)])
    case Delete(_, g) => Without(s, g)
    case Join(u, g, now) => s.(members := Upserted(s.members, g, u, Member, now))
    case Leave(u, g) => s.(members := s.members - {(g, u)})
    case Invite(_, g, t, _, now) => s.(members := Upserted(s.members, g, t, Invited, now))
    case Respond(u, g, accept, now) =>
      s.(members := if accept then Upserted(s.members, g, u, Member, now) else s.members - {(g, u)})
    case Kick(_, g, t, ban, now) =>
      s.(members := if ban then Upserted(s.members, g, t, Banned, now) else s.members - {(g, t)})
    case Erase(u, heirs) => Erased(s, u, heirs)
  }

  function Run(s: State, events: seq<Event>): State
    decreases |events|
  {
    if events == [] then s else Run(Step(s, events[0]), events[1..])
  }

  const INITIAL := State(map[], map[], {}, {})

  // ---------------------------------------------------------------- one owner, always

  /** Rows belong to groups that exist, and those have used ids. */
  ghost predicate Known(s: State) {
    && (forall k :: k in s.members ==> k.0 in s.groups)
    && (forall g :: g in s.groups ==> g in s.used)
  }

  /** Exactly one owner row per group, and it is the group's owner. */
  ghost predicate OwnerRows(s: State) {
    && (forall g :: g in s.groups ==> Is(s.members, g, s.groups[g].owner, Owner))
    && (forall k :: k in s.members && k.0 in s.groups && s.members[k].role == Owner ==> k.1 == s.groups[k.0].owner)
  }

  ghost predicate Joined(s: State) {
    forall k :: k in s.members ==> k.1 in s.joined
  }

  ghost predicate Owned(s: State) {
    Known(s) && OwnerRows(s) && Joined(s)
  }

  lemma StepKeepsKnown(s: State, e: Event)
    requires Known(s)
    ensures Known(Step(s, e))
  {
  }

  lemma StepKeepsJoined(s: State, e: Event)
    requires Joined(s)
    ensures Joined(Step(s, e))
  {
  }

  lemma EraseKeepsOwnerRows(s: State, u: UserId, heirs: map<GroupId, UserId>)
    requires Known(s) && OwnerRows(s) && Enabled(s, Erase(u, heirs))
    ensures OwnerRows(Erased(s, u, heirs))
  {
    var s' := Erased(s, u, heirs);
    forall g | g in s'.groups ensures Is(s'.members, g, s'.groups[g].owner, Owner) {
      assert Is(s.members, g, s.groups[g].owner, Owner);
      assert PassedOn(s, u, g) || s.groups[g].owner != u;
    }
  }

  /** A row written for anyone but the owner, with any role but the owner's, does not matter. */
  lemma RowKeepsOwnerRows(s: State, s': State, g: GroupId, u: UserId)
    requires OwnerRows(s) && s'.groups == s.groups && (g in s.groups ==> u != s.groups[g].owner)
    requires s'.members - {(g, u)} == s.members - {(g, u)}
    requires (g, u) in s'.members ==> s'.members[(g, u)].role != Owner
    ensures OwnerRows(s')
  {
    forall k | k != (g, u) ensures k in s'.members <==> k in s.members {
      assert k in s'.members - {(g, u)} <==> k in s.members - {(g, u)};
    }
    forall k | k != (g, u) && k in s.members ensures s'.members[k] == s.members[k] {
      assert (s'.members - {(g, u)})[k] == (s.members - {(g, u)})[k];
    }
    forall h | h in s'.groups ensures Is(s'.members, h, s'.groups[h].owner, Owner) {
      assert Is(s.members, h, s.groups[h].owner, Owner);
    }
  }

  /** The row a handler writes or deletes, if it is one of those that touch one row. */
  function Row(e: Event): Option<(GroupId, UserId)> {
    match e
    case Join(u, g, _) => Some((g, u))
    case Leave(u, g) => Some((g, u))
    case Invite(_, g, t, _, _) => Some((g, t))
    case Respond(u, g, _, _) => Some((g, u))
    case Kick(_, g, t, _, _) => Some((g, t))
    case _ => None
  }

  lemma StepKeepsOwnerRows(s: State, e: Event)
    requires Known(s) && OwnerRows(s)
    ensures OwnerRows(Step(s, e))
  {
    if Enabled(s, e) {
      if e.Erase? {
        EraseKeepsOwnerRows(s, e.user, e.heirs);
      } else if Row(e).Some? {
        var k := Row(e).value;
        RowIsNotOwners(s, e);
        RowKeepsOwnerRows(s, Step(s, e), k.0, k.1);
      }
    }
  }

  lemma RowIsNotOwners(s: State, e: Event)
    requires OwnerRows(s) && Enabled(s, e) && Row(e).Some?
    ensures Row(e).value.0 in s.groups ==> Row(e).value.1 != s.groups[Row(e).value.0].owner
  {
    var g := Row(e).value.0;
    assert g in s.groups ==> Is(s.members, g, s.groups[g].owner, Owner);
  }

  lemma EraseKeepsOwned(s: State, u: UserId, heirs: map<GroupId, UserId>)
    requires Owned(s) && Enabled(s, Erase(u, heirs))
    ensures Owned(Erased(s, u, heirs))
  {
    EraseKeepsOwnerRows(s, u, heirs);
    StepKeepsKnown(s, Erase(u, heirs));
    StepKeepsJoined(s, Erase(u, heirs));
  }

  lemma StepKeepsOwned(s: State, e: Event)
    requires Owned(s)
    ensures Owned(Step(s, e))
  {
    StepKeepsKnown(s, e);
    StepKeepsOwnerRows(s, e);
    StepKeepsJoined(s, e);
  }

  /** Main result: through every run each group has exactly one owner row, matching its owner. */
  lemma {:induction false} RunKeepsOwned(s: State, events: seq<Event>)
    requires Owned(s)
    ensures Owned(Run(s, events))
    decreases |events|
  {
    if events != [] {
      StepKeepsOwned(s, events[0]);
      RunKeepsOwned(Step(s, events[0]), events[1..]);
    }
  }

  // ---------------------------------------------------------------- private stays private and capped

  lemma StepKeepsPrivate(s: State, e: Event, g: GroupId)
    requires Known(s) && g in s.groups && s.groups[g].visibility == Private && g in Step(s, e).groups
    ensures Step(s, e).groups[g].visibility == Private
    ensures Full(s, g) ==> Seats(Step(s, e).members, g) <= Seats(s.members, g)
    ensures !Full(s, g) ==> |Seats(Step(s, e).members, g)| <= |Seats(s.members, g)| + 1
  {
    var s' := Step(s, e);
    forall u | u in Seats(s'.members, g) && u !in Seats(s.members, g) ensures e.Respond? && e.user == u && !Full(s, g) {
      NewSeat(s, e, g, u);
    }
    if e.Respond? {
      assert Seats(s'.members, g) <= Seats(s.members, g) + {e.user};
      SubsetSize(Seats(s'.members, g), Seats(s.members, g) + {e.user});
    } else {
      assert Seats(s'.members, g) <= Seats(s.members, g);
      SubsetSize(Seats(s'.members, g), Seats(s.members, g));
    }
  }

  /** In a private group a seat is only ever taken by accepting an invitation while one is free. */
  lemma NewSeat(s: State, e: Event, g: GroupId, u: UserId)
    requires Known(s) && g in s.groups && s.groups[g].visibility == Private && g in Step(s, e).groups
    requires u in Seats(Step(s, e).members, g) && u !in Seats(s.members, g)
    ensures e.Respond? && e.user == u && !Full(s, g)
  {
    assert Active(Step(s, e).members, g, u);
    assert Active(s.members, g, u) ==> (g, u) in s.members && u in Seats(s.members, g);
  }

  /** A group that exists at both ends of a run existed throughout: ids are not reused. */
  lemma {:induction false} NotReused(s: State, events: seq<Event>, g: GroupId)
    requires Known(s) && g in s.used && g !in s.groups
    ensures g !in Run(s, events).groups
    decreases |events|
  {
    if events != [] {
      StepKeepsKnown(s, events[0]);
      NotReused(Step(s, events[0]), events[1..], g);
    }
  }

  /**
    Main result: a private group never becomes public, and never holds more members than the cap
    allows or than it had when last seen.
   */
  lemma {:induction false} PrivateForever(s: State, events: seq<Event>, g: GroupId, bound: nat)
    requires Owned(s) && g in s.groups && s.groups[g].visibility == Private && g in Run(s, events).groups
    requires |Seats(s.members, g)| <= bound && PRIVATE_CAP <= bound
    ensures Run(s, events).groups[g].visibility == Private
    ensures |Seats(Run(s, events).members, g)| <= bound
    decreases |events|
  {
    if events != [] {
      var s' := Step(s, events[0]);
      StepKeepsOwned(s, events[0]);
      if g !in s'.groups {
        NotReused(s', events[1..], g);
      }
      StepKeepsPrivate(s, events[0], g);
      SubsetSize(Seats(s.members, g), Seats(s.members, g));
      if Full(s, g) {
        SubsetSize(Seats(s'.members, g), Seats(s.members, g));
      }
      PrivateForever(s', events[1..], g, bound);
    }
  }

  // ---------------------------------------------------------------- bans

  /** The two ways out of a ban: the owner's kick without ban, and erasing one's own profile. */
  predicate Lifts(s: State, e: Event, g: GroupId, u: UserId) {
    Enabled(s, e) && ((e.Kick? && e.group == g && e.target == u && !e.ban) || (e.Erase? && e.user == u))
  }

  /** Nobody but the owner gets past the first of them. */
  lemma OnlyOwnerLifts(s: State, e: Event, g: GroupId, u: UserId)
    requires Owned(s) && Lifts(s, e, g, u) && e.Kick?
    ensures g in s.groups && e.user == s.groups[g].owner && e.user != u
  {
    assert (g, e.user) in s.members;
  }

  lemma StepKeepsBan(s: State, e: Event, g: GroupId, u: UserId)
    requires Known(s) && Is(s.members, g, u, Banned) && !Lifts(s, e, g, u)
    ensures Is(Step(s, e).members, g, u, Banned) || g !in Step(s, e).groups
  {
    if Enabled(s, e) && e.Erase? && PassedOn(s, e.user, g) {
      assert IsHeir(s.members, g, e.user, e.heirs[g]);
    }
  }

  lemma PrefixRun(s: State, events: seq<Event>, i: nat)
    requires i < |events|
    ensures Run(s, events[..i + 1]) == Run(Step(s, events[0]), events[1..][..i])
  {
    assert events[..i + 1][1..] == events[1..][..i];
  }

  /**
    Main result: a banned user has no other role until the ban is lifted or the group is gone.
    Refused attempts to lift it, by whomever, are part of the run.
   */
  lemma {:induction false} BanHolds(s: State, events: seq<Event>, g: GroupId, u: UserId)
    requires Owned(s) && Is(s.members, g, u, Banned)
    requires forall i :: 0 <= i < |events| ==> !Lifts(Run(s, events[..i]), events[i], g, u)
    ensures Is(Run(s, events).members, g, u, Banned) || g !in Run(s, events).groups
    decreases |events|
  {
    if events != [] {
      var s', rest := Step(s, events[0]), events[1..];
      assert events[..0] == [];
      StepKeepsOwned(s, events[0]);
      StepKeepsBan(s, events[0], g, u);
      if g in s'.groups {
        forall i | 0 <= i < |rest| ensures !Lifts(Run(s', rest[..i]), rest[i], g, u) {
          PrefixRun(s, events, i);
          assert !Lifts(Run(s, events[..i + 1]), events[i + 1], g, u);
        }
        BanHolds(s', rest, g, u);
      } else {
        assert g in s.groups && g in s'.used;
        NotReused(s', rest, g);
      }
    }
  }

  /** From the start: what callers may rely on in every reachable state. */
  lemma GroupSafety(events: seq<Event>)
    ensures var s := Run(INITIAL, events);
            && Owned(s)
            && (forall g :: g in s.groups ==> s.groups[g].owner in s.joined)
            && (forall g, u, v :: Is(s.members, g, u, Owner) && Is(s.members, g, v, Owner) ==> u == v)
  {
    RunKeepsOwned(INITIAL, events);
    var s := Run(INITIAL, events);
    forall g | g in s.groups ensures s.groups[g].owner in s.joined {
      assert (g, s.groups[g].owner) in s.members;
    }
  }

  // ---------------------------------------------------------------- succession, group by group

  /** Deleted with its owner gone: handled, and nobody to take over. */
  predicate Dropped(s: State, u: UserId, done: set<GroupId>, g: GroupId) {
    g in done && !HasHeir(s.members, g, u)
  }

  ghost function HandedGroups(s: State, u: UserId, done: set<GroupId>, heirs: map<GroupId, UserId>): map<GroupId, Group>
    requires HeirsFor(s, u, done, heirs)
  {
    map g | g in s.groups && !Dropped(s, u, done, g) ::
      if g in done then s.groups[g].(owner := heirs[g]) else s.groups[g]
  }

  ghost function HandedRows(s: State, u: UserId, done: set<GroupId>, heirs: map<GroupId, UserId>): Rows
    requires HeirsFor(s, u, done, heirs)
  {
    map k | k in s.members && !Dropped(s, u, done, k.0) ::
      if k.0 in done && k.1 == heirs[k.0] then s.members[k].(role := Owner) else s.members[k]
  }

  /** The tables once the public groups in `done` have been passed on or deleted. */
  ghost function Handed(s: State, u: UserId, done: set<GroupId>, heirs: map<GroupId, UserId>): State
    requires HeirsFor(s, u, done, heirs)
  {
    s.(groups := HandedGroups(s, u, done, heirs), members := HandedRows(s, u, done, heirs))
  }

  ghost predicate HeirsFor(s: State, u: UserId, done: set<GroupId>, heirs: map<GroupId, UserId>) {
    forall g :: g in done && HasHeir(s.members, g, u) ==> g in heirs && IsHeir(s.members, g, u, heirs[g])
  }

  /** Groups not handled yet still have their old rows, so the same heirs. */
  lemma RowsUntouched(s: State, u: UserId, done: set<GroupId>, heirs: map<GroupId, UserId>, g: GroupId)
    requires HeirsFor(s, u, done, heirs) && g !in done
    ensures HasHeir(Handed(s, u, done, heirs).members, g, u) <==> HasHeir(s.members, g, u)
    ensures forall h :: IsHeir(Handed(s, u, done, heirs).members, g, u, h) <==> IsHeir(s.members, g, u, h)
  {
    var m := Handed(s, u, done, heirs).members;
    assert forall k: (GroupId, UserId) :: k.0 == g ==>
        (k in m <==> k in s.members) && (k in m ==> m[k] == s.members[k]);
  }

  lemma HeirsForMore(s: State, u: UserId, done: set<GroupId>, heirs: map<GroupId, UserId>, g: GroupId, h: UserId)
    requires HeirsFor(s, u, done, heirs) && g !in done && IsHeir(s.members, g, u, h)
    ensures HeirsFor(s, u, done + {g}, heirs[g := h])
    ensures forall x :: Dropped(s, u, done + {g}, x) <==> Dropped(s, u, done, x)
  {
    assert HasHeir(s.members, g, u) by { assert (g, h) in s.members; }
  }

  lemma PassOneGroup(s: State, u: UserId, done: set<GroupId>, heirs: map<GroupId, UserId>, g: GroupId, h: UserId)
    requires HeirsFor(s, u, done, heirs) && g !in done && g in s.groups && IsHeir(s.members, g, u, h)
    requires HeirsFor(s, u, done + {g}, heirs[g := h])
    requires forall x :: Dropped(s, u, done + {g}, x) <==> Dropped(s, u, done, x)
    ensures var groups := HandedGroups(s, u, done, heirs);
            && g in groups
            && HandedGroups(s, u, done + {g}, heirs[g := h]) == groups[g := groups[g].(owner := h)]
  {
  }

  lemma PassOneRow(s: State, u: UserId, done: set<GroupId>, heirs: map<GroupId, UserId>, g: GroupId, h: UserId)
    requires HeirsFor(s, u, done, heirs) && g !in done && g in s.groups && IsHeir(s.members, g, u, h)
    requires HeirsFor(s, u, done + {g}, heirs[g := h])
    requires forall x :: Dropped(s, u, done + {g}, x) <==> Dropped(s, u, done, x)
    ensures var rows := HandedRows(s, u, done, heirs);
            && (g, h) in rows
            && HandedRows(s, u, done + {g}, heirs[g := h]) == rows[(g, h) := rows[(g, h)].(role := Owner)]
  {
  }

  lemma PassOne(s: State, u: UserId, done: set<GroupId>, heirs: map<GroupId, UserId>, g: GroupId, h: UserId)
    requires HeirsFor(s, u, done, heirs) && g !in done && g in s.groups && IsHeir(s.members, g, u, h)
    ensures HeirsFor(s, u, done + {g}, heirs[g := h])
    ensures g in Handed(s, u, done, heirs).groups && (g, h) in Handed(s, u, done, heirs).members
    ensures var c := Handed(s, u, done, heirs);
            Handed(s, u, done + {g}, heirs[g := h])
            == c.(groups := c.groups[g := c.groups[g].(owner := h)],
                  members := c.members[(g, h) := c.members[(g, h)].(role := Owner)])
  {
    HeirsForMore(s, u, done, heirs, g, h);
    PassOneGroup(s, u, done, heirs, g, h);
    PassOneRow(s, u, done, heirs, g, h);
  }

  lemma DropOne(s: State, u: UserId, done: set<GroupId>, heirs: map<GroupId, UserId>, g: GroupId)
    requires HeirsFor(s, u, done, heirs) && g !in done && !HasHeir(s.members, g, u)
    ensures HeirsFor(s, u, done + {g}, heirs)
    ensures Handed(s, u, done + {g}, heirs) == Without(Handed(s, u, done, heirs), g)
  {
    assert forall h :: Dropped(s, u, done + {g}, h) <==> Dropped(s, u, done, h) || h == g;
    assert HandedGroups(s, u, done + {g}, heirs) == HandedGroups(s, u, done, heirs) - {g};
    DropOneRows(s, u, done, heirs, g);
  }

  lemma DropOneRows(s: State, u: UserId, done: set<GroupId>, heirs: map<GroupId, UserId>, g: GroupId)
    requires HeirsFor(s, u, done, heirs) && HeirsFor(s, u, done + {g}, heirs) && g !in done && !HasHeir(s.members, g, u)
    ensures var rows := HandedRows(s, u, done, heirs);
            HandedRows(s, u, done + {g}, heirs) == map k | k in rows && k.0 != g :: rows[k]
  {
    assert forall h :: Dropped(s, u, done + {g}, h) <==> Dropped(s, u, done, h) || h == g;
  }

  /** What the two sweeps after the loop leave. */
  predicate OwnedPrivate(groups: map<GroupId, Group>, u: UserId, g: GroupId) {
    g in groups && groups[g].owner == u && groups[g].visibility == Private
  }

  ghost function SweptGroups(groups: map<GroupId, Group>, u: UserId): map<GroupId, Group> {
    map g | g in groups && !OwnedPrivate(groups, u, g) :: groups[g]
  }

  ghost function SweptRows(groups: map<GroupId, Group>, rows: Rows, u: UserId): Rows {
    map k | k in rows && k.1 != u && !OwnedPrivate(groups, u, k.0) :: rows[k]
  }

  ghost function OwnedPublic(s: State, u: UserId): set<GroupId> {
    set g | g in s.groups && s.groups[g].owner == u && s.groups[g].visibility == Public
  }

  lemma HandledGroup(s: State, u: UserId, heirs: map<GroupId, UserId>, g: GroupId)
    requires HeirsFor(s, u, OwnedPublic(s, u), heirs) && g in s.groups
    ensures DiesWith(s, u, g) <==>
              Dropped(s, u, OwnedPublic(s, u), g) || OwnedPrivate(HandedGroups(s, u, OwnedPublic(s, u), heirs), u, g)
    ensures PassedOn(s, u, g) <==> g in OwnedPublic(s, u) && !Dropped(s, u, OwnedPublic(s, u), g)
  {
    if PassedOn(s, u, g) {
      assert IsHeir(s.members, g, u, heirs[g]);
    }
  }

  ghost predicate Handles(s: State, u: UserId, heirs: map<GroupId, UserId>) {
    var all := OwnedPublic(s, u);
    && HeirsFor(s, u, all, heirs)
    && forall g :: g in s.groups ==>
         && (DiesWith(s, u, g) <==> Dropped(s, u, all, g) || OwnedPrivate(HandedGroups(s, u, all, heirs), u, g))
         && (PassedOn(s, u, g) <==> g in all && !Dropped(s, u, all, g))
  }

  lemma HandedGroupsErased(s: State, u: UserId, heirs: map<GroupId, UserId>)
    requires Handles(s, u, heirs) && Enabled(s, Erase(u, heirs))
    ensures Erased(s, u, heirs).groups == SweptGroups(HandedGroups(s, u, OwnedPublic(s, u), heirs), u)
  {
  }

  lemma HandedRowsErased(s: State, u: UserId, heirs: map<GroupId, UserId>)
    requires Known(s) && Handles(s, u, heirs) && Enabled(s, Erase(u, heirs))
    ensures Erased(s, u, heirs).members
            == SweptRows(HandedGroups(s, u, OwnedPublic(s, u), heirs), HandedRows(s, u, OwnedPublic(s, u), heirs), u)
  {
  }

  /** Handing on all public groups, then deleting the private ones and the memberships, is the erasure. */
  lemma HandedIsErased(s: State, u: UserId, heirs: map<GroupId, UserId>)
    requires Known(s) && HeirsFor(s, u, OwnedPublic(s, u), heirs)
    ensures Enabled(s, Erase(u, heirs))
    ensures var c := Handed(s, u, OwnedPublic(s, u), heirs);
            Erased(s, u, heirs)
            == State(SweptGroups(c.groups, u), SweptRows(c.groups, c.members, u), s.joined - {u}, s.used)
  {
    forall g | g in s.groups ensures
      var all := OwnedPublic(s, u);
      && (DiesWith(s, u, g) <==> Dropped(s, u, all, g) || OwnedPrivate(HandedGroups(s, u, all, heirs), u, g))
      && (PassedOn(s, u, g) <==> g in all && !Dropped(s, u, all, g))
    {
      HandledGroup(s, u, heirs, g);
    }
    HandedGroupsErased(s, u, heirs);
    HandedRowsErased(s, u, heirs);
  }

  // ---------------------------------------------------------------- the tables

  class GroupStore {
    var groups: map<GroupId, Group>
    var members: Rows
    var joined: set<UserId>
    var used: set<GroupId>

    ghost function View(): State
      reads this
    {
      State(groups, members, joined, used)
    }

    constructor ()
      ensures View() == INITIAL
    {
      groups, members, joined, used := map[], map[], {}, {};
    }

    method UpsertMember(g: GroupId, u: UserId, role: Role, now: int)
      modifies this`members
      ensures members == Upserted(old(members), g, u, role, now)
    {
      if (g, u) !in members {
        members := members[(g, u) := Membership(role, now)];
      } else if members[(g, u)].role != Banned || role == Banned {
        members := members[(g, u) := members[(g, u)].(role := role)];
      }
    }

    /** DELETE FROM social_groups, with the cascade to the member rows. */
    method DropGroup(g: GroupId)
      modifies this`groups, this`members
      ensures View() == Without(old(View()), g)
    {
      groups := groups - {g};
      members := map k | k in members && k.0 != g :: members[k];
    }

    method CreateGroup(u: UserId, g: GroupId, v: Visibility, now: int)
      modifies this
      ensures View() == Step(old(View()), Create(u, g, v, now))
    {
      if u in joined && g !in used {
        groups := groups[g := Group(u, v)];
        used := used + {g};
        UpsertMember(g, u, Owner, now);
      }
    }

    method UpdateGroup(u: UserId, g: GroupId, v: Visibility) returns (ok: bool)
      modifies this`groups
      ensures View() == Step(old(View()), Update(u, g, v)) && ok == Enabled(old(View()), Update(u, g, v))
    {
      ok := false;
      if u !in joined || g !in groups {
        return;
      }
      if groups[g].visibility == Private && v == Public {
        return;
      }
      if groups[g].owner == u {
        groups := groups[g := groups[g].(visibility := v)];
        ok := true;
      }
    }

    method DeleteGroup(u: UserId, g: GroupId) returns (ok: bool)
      modifies this`groups, this`members
      ensures View() == Step(old(View()), Delete(u, g)) && ok == Enabled(old(View()), Delete(u, g))
    {
      ok := u in joined && g in groups && groups[g].owner == u;
      if ok {
        DropGroup(g);
      }
    }

    method JoinGroup(u: UserId, g: GroupId, now: int)
      modifies this`members
      ensures View() == Step(old(View()), Join(u, g, now))
    {
      if u !in joined || g !in groups || groups[g].visibility != Public {
        return;
      }
      if (g, u) in members && members[(g, u)].role != Invited {
        return;
      }
      UpsertMember(g, u, Member, now);
    }

    method LeaveGroup(u: UserId, g: GroupId)
      modifies this`members
      ensures View() == Step(old(View()), Leave(u, g))
    {
      if u !in joined || (g, u) !in members || members[(g, u)].role == Banned || members[(g, u)].role == Owner {
        return;
      }
      members := members - {(g, u)};
    }

    method InviteToGroup(u: UserId, g: GroupId, t: UserId, visible: bool, now: int)
      modifies this`members
      ensures View() == Step(old(View()), Invite(u, g, t, visible, now))
    {
      if u !in joined || !Active(members, g, u) || g !in groups {
        return;
      }
      if groups[g].visibility == Private && |Seats(members, g)| >= PRIVATE_CAP {
        return;
      }
      if t !in joined || t == u || !visible || (g, t) in members {
        return;
      }
      UpsertMember(g, t, Invited, now);
    }

    method RespondToInvite(u: UserId, g: GroupId, accept: bool, now: int)
      modifies this`members
      ensures View() == Step(old(View()), Respond(u, g, accept, now))
    {
      if u !in joined || !Is(members, g, u, Invited) || g !in groups {
        return;
      }
      if accept {
        if groups[g].visibility == Private && |Seats(members, g)| >= PRIVATE_CAP {
          return;
        }
        UpsertMember(g, u, Member, now);
      } else {
        members := members - {(g, u)};
      }
    }

    method KickFromGroup(u: UserId, g: GroupId, t: UserId, ban: bool, now: int)
      modifies this`members
      ensures View() == Step(old(View()), Kick(u, g, t, ban, now))
    {
      if u !in joined || !Is(members, g, u, Owner) || t !in joined || t == u {
        return;
      }
      if ban {
        UpsertMember(g, t, Banned, now);
      } else {
        members := members - {(g, t)};
      }
    }

    /** ORDER BY created_at LIMIT 1 over the plain members other than the one leaving. */
    method FindSuccessor(g: GroupId, leaving: UserId) returns (heir: Option<UserId>)
      ensures heir.Some? <==> HasHeir(members, g, leaving)
      ensures heir.Some? ==> IsHeir(members, g, leaving, heir.value)
    {
      heir := None;
      var rest := members.Keys;
      while exists k :: k in rest
        invariant rest <= members.Keys
        invariant heir.Some? ==> heir.value != leaving && Is(members, g, heir.value, Member)
        invariant forall k :: k in members.Keys - rest && k.0 == g && k.1 != leaving && members[k].role == Member ==>
                    heir.Some? && members[(g, heir.value)].since <= members[k].since
        decreases rest
      {
        var k :| k in rest;
        if k.0 == g && k.1 != leaving && members[k].role == Member
           && (heir.None? || members[k].since < members[(g, heir.value)].since) {
          heir := Some(k.1);
        }
        rest := rest - {k};
      }
    }

    /** One turn of the succession loop. */
    method HandOn(g: GroupId, u: UserId, ghost s: State, ghost done: set<GroupId>, ghost heirs: map<GroupId, UserId>)
      returns (ghost heirs': map<GroupId, UserId>)
      requires HeirsFor(s, u, done, heirs) && View() == Handed(s, u, done, heirs) && g !in done && g in s.groups
      modifies this`groups, this`members
      ensures HeirsFor(s, u, done + {g}, heirs') && View() == Handed(s, u, done + {g}, heirs')
    {
      RowsUntouched(s, u, done, heirs, g);
      var heir := FindSuccessor(g, u);
      heirs' := heirs;
      if heir.None? {
        DropOne(s, u, done, heirs, g);
        DropGroup(g);
      } else {
        PassOne(s, u, done, heirs, g, heir.value);
        heirs' := heirs[g := heir.value];
        groups := groups[g := groups[g].(owner := heir.value)];
        members := members[(g, heir.value) := members[(g, heir.value)].(role := Owner)];
      }
    }

    /** The loop over the owned public groups. */
    method HandOnAll(u: UserId) returns (ghost heirs: map<GroupId, UserId>)
      modifies this`groups, this`members
      ensures HeirsFor(old(View()), u, OwnedPublic(old(View()), u), heirs)
      ensures View() == Handed(old(View()), u, OwnedPublic(old(View()), u), heirs)
    {
      ghost var s := View();
      heirs := map[];
      var pending := set g | g in groups && groups[g].owner == u && groups[g].visibility == Public;
      ghost var all := OwnedPublic(s, u);
      assert all - pending == {};
      while exists g :: g in pending
        invariant pending <= all && HeirsFor(s, u, all - pending, heirs)
        invariant View() == Handed(s, u, all - pending, heirs)
        decreases pending
      {
        var g :| g in pending;
        assert all - (pending - {g}) == (all - pending) + {g};
        heirs := HandOn(g, u, s, all - pending, heirs);
        pending := pending - {g};
      }
      assert all - pending == all;
    }

    /** DELETE the owned private groups with their rows, then the user's own rows. */
    method SweepOwned(u: UserId)
      modifies this`groups, this`members
      ensures groups == SweptGroups(old(groups), u) && members == SweptRows(old(groups), old(members), u)
    {
      members := map k | k in members && !OwnedPrivate(groups, u, k.0) :: members[k];
      groups := map g | g in groups && !OwnedPrivate(groups, u, g) :: groups[g];
      members := map k | k in members && k.1 != u :: members[k];
    }

    /** The group part of social erasure: succession, then the private groups and the memberships. */
    method EraseUser(u: UserId) returns (ghost heirs: map<GroupId, UserId>)
      requires Known(View())
      modifies this
      ensures Enabled(old(View()), Erase(u, heirs))
      ensures View() == Erased(old(View()), u, heirs)
    {
      heirs := HandOnAll(u);
      HandedIsErased(old(View()), u, heirs);
      SweepOwned(u);
      joined := joined - {u};
    }
  }
}
