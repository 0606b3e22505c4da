/**
  What each group handler does, stated on the rows before and after it and without the functions
  the handlers are composed of (handlers/groups.go, handlers/social.go), and who can be in a
  private group from its creation on.
 */
module GroupOutcomes {
  import opened Common
  import opened Groups

  type Row = Option<Membership>

  function At(m: Rows, k: (GroupId, UserId)): Row {
    if k in m then Some(m[k]) else None
  }

  predicate HasRole(m: Rows, g: GroupId, u: UserId, roles: set<Role>) {
    (g, u) in m && m[(g, u)].role in roles
  }

  /** Nothing but this one row is written, and it becomes `row`. */
  ghost predicate Wrote(s: State, s': State, k: (GroupId, UserId), row: Row) {
    && s' == s.(members := s'.members) && At(s'.members, k) == row
    && forall j :: j != k ==> At(s'.members, j) == At(s.members, j)
  }

  /** The row with another role; it keeps its tenure, or starts now. */
  function WithRole(m: Rows, k: (GroupId, UserId), role: Role, now: int): Row {
    Some(Membership(role, if k in m then m[k].since else now))
  }

  /** Members and the owner, counted. */
  function Occupied(m: Rows, g: GroupId): set<UserId> {
    set k | k in m && k.0 == g && (m[k].role == Member || m[k].role == Owner) :: k.1
  }

  predicate NoSeatLeft(s: State, g: GroupId)
    requires g in s.groups
  {
    s.groups[g].visibility == Private && |Occupied(s.members, g)| >= 100
  }

  lemma OccupiedAreSeats(m: Rows, g: GroupId)
    ensures Occupied(m, g) == Seats(m, g)
  {
    forall u ensures u in Occupied(m, g) <==> u in Seats(m, g) {
      assert (g, u) in m ==> (g, u).0 == g && (g, u).1 == u;
    }
  }

  // ---------------------------------------------------------------- groups

  /** A group is created as asked for, with its creator as owner, in the group's row and in the member's. */
  lemma CreateOutcome(s: State, u: UserId, g: GroupId, v: Visibility, now: int)
    requires Known(s)
    ensures var s' := Step(s, Create(u, g, v, now));
            if u in s.joined && g !in s.used then
              && s'.groups == s.groups[g := Group(u, v)] && s'.used == s.used + {g} && s'.joined == s.joined
              && s'.members == s.members[(g, u) := Membership(Owner, now)]
            else s' == s
  {
  }

  /** The owner changes the visibility, but never from private to public. */
  lemma UpdateOutcome(s: State, u: UserId, g: GroupId, v: Visibility)
    ensures var s' := Step(s, Update(u, g, v));
            if u in s.joined && g in s.groups && s.groups[g].owner == u
               && (v == Private || s.groups[g].visibility == Public)
            then Enabled(s, Update(u, g, v)) && s' == s.(groups := s.groups[g := Group(u, v)])
            else !Enabled(s, Update(u, g, v)) && s' == s
  {
  }

  lemma JoinSocialOutcome(s: State, u: UserId)
    ensures Step(s, JoinSocial(u)) == s.(joined := s.joined + {u})
  {
  }

  /** The upsert behind every row: any role but over a ban, which only a ban overwrites; tenure is kept. */
  lemma UpsertOutcome(m: Rows, g: GroupId, u: UserId, role: Role, now: int, k: (GroupId, UserId))
    ensures At(Upserted(m, g, u, role, now), k)
         == if k != (g, u) || (k in m && m[k].role == Banned && role != Banned) then At(m, k)
            else WithRole(m, k, role, now)
  {
  }

  /** The owner deletes the group with all of its rows. */
  lemma DeleteOutcome(s: State, u: UserId, g: GroupId)
    ensures var s' := Step(s, Delete(u, g));
            if u in s.joined && g in s.groups && s.groups[g].owner == u then
              && s'.groups == s.groups - {g} && s'.joined == s.joined && s'.used == s.used
              && forall k :: At(s'.members, k) == if k.0 == g then None else At(s.members, k)
            else s' == s
  {
  }

  // ---------------------------------------------------------------- rows

  /** Joining makes a member of anybody without a row, or invited, in a public group. */
  lemma JoinOutcome(s: State, u: UserId, g: GroupId, now: int)
    ensures var s' := Step(s, Join(u, g, now));
            if u in s.joined && g in s.groups && s.groups[g].visibility == Public
               && ((g, u) !in s.members || HasRole(s.members, g, u, {Invited}))
            then Wrote(s, s', (g, u), WithRole(s.members, (g, u), Member, now))
            else s' == s
  {
  }

  /** Leaving drops the row of a member or of somebody invited. */
  lemma LeaveOutcome(s: State, u: UserId, g: GroupId)
    ensures var s' := Step(s, Leave(u, g));
            if u in s.joined && HasRole(s.members, g, u, {Member, Invited}) then Wrote(s, s', (g, u), None) else s' == s
  {
  }

  /** A member or the owner invites somebody visible without a row, while a seat is left. */
  lemma InviteOutcome(s: State, u: UserId, g: GroupId, t: UserId, visible: bool, now: int)
    ensures var s' := Step(s, Invite(u, g, t, visible, now));
            if u in s.joined && HasRole(s.members, g, u, {Member, Owner}) && g in s.groups && !NoSeatLeft(s, g)
               && t in s.joined && t != u && visible && (g, t) !in s.members
            then Wrote(s, s', (g, t), Some(Membership(Invited, now)))
            else s' == s
  {
    OccupiedAreSeats(s.members, g);
  }

  /** Accepting an invitation takes a seat if one is left; declining drops the row. */
  lemma RespondOutcome(s: State, u: UserId, g: GroupId, accept: bool, now: int)
    ensures var s' := Step(s, Respond(u, g, accept, now));
            if u in s.joined && g in s.groups && HasRole(s.members, g, u, {Invited}) && !(accept && NoSeatLeft(s, g))
            then Wrote(s, s', (g, u), if accept then WithRole(s.members, (g, u), Member, now) else None)
            else s' == s
  {
    OccupiedAreSeats(s.members, g);
  }

  /** The holder of the owner row bans anybody else, or drops their row. */
  lemma KickOutcome(s: State, u: UserId, g: GroupId, t: UserId, ban: bool, now: int)
    ensures var s' := Step(s, Kick(u, g, t, ban, now));
            if u in s.joined && HasRole(s.members, g, u, {Owner}) && t in s.joined && t != u
            then Wrote(s, s', (g, t), if ban then WithRole(s.members, (g, t), Banned, now) else None)
            else s' == s
  {
  }

  // ---------------------------------------------------------------- erasure

  /** A plain member other than the one leaving, and none of them has been there longer. */
  predicate LongestTenured(m: Rows, g: GroupId, leaving: UserId, h: UserId) {
    && h != leaving && HasRole(m, g, h, {Member})
    && forall k :: k in m && k.0 == g && k.1 != leaving && m[k].role == Member ==> m[(g, h)].since <= m[k].since
  }

  predicate OwnsPublic(s: State, u: UserId, g: GroupId) {
    g in s.groups && s.groups[g].owner == u && s.groups[g].visibility == Public
  }

  /** An owned group dies, unless it is public and has a plain member left: then the longest-tenured takes over. */
  lemma EraseOutcome(s: State, u: UserId, heirs: map<GroupId, UserId>, g: GroupId)
    requires Enabled(s, Erase(u, heirs))
    ensures var s' := Step(s, Erase(u, heirs));
            && s'.joined == s.joined - {u} && s'.used == s.used
            && (g !in s.groups ==> g !in s'.groups)
            && (g in s.groups && s.groups[g].owner != u ==> g in s'.groups && s'.groups[g] == s.groups[g])
            && (g in s.groups && s.groups[g].owner == u && g in s'.groups ==>
                  && OwnsPublic(s, u, g) && s'.groups[g].visibility == Public
                  && LongestTenured(s.members, g, u, s'.groups[g].owner))
            && (OwnsPublic(s, u, g) && (exists h :: LongestTenured(s.members, g, u, h)) ==> g in s'.groups)
  {
    if h :| LongestTenured(s.members, g, u, h) {
      assert (g, h) in s.members;
    }
  }

  /** Whoever has a plain member to hand over to has a longest-tenured one. */
  lemma {:induction false} Longest(m: Rows, g: GroupId, leaving: UserId, keys: set<(GroupId, UserId)>,
                                   k: (GroupId, UserId))
    returns (h: UserId)
    requires keys <= m.Keys && k in keys && k.0 == g && k.1 != leaving && m[k].role == Member
    ensures (g, h) in keys && h != leaving && m[(g, h)].role == Member
    ensures forall j :: j in keys && j.0 == g && j.1 != leaving && m[j].role == Member ==> m[(g, h)].since <= m[j].since
    decreases keys
  {
    h := k.1;
    if j :| j in keys - {k} && j.0 == g && j.1 != leaving && m[j].role == Member {
      var best := Longest(m, g, leaving, keys - {k}, j);
      h := if m[(g, best)].since < m[k].since then best else k.1;
    }
  }

  /** Erasing is possible in every state: there are successors for all groups that need one. */
  lemma ErasePossible(s: State, u: UserId) returns (heirs: map<GroupId, UserId>)
    ensures Enabled(s, Erase(u, heirs))
  {
    heirs := Successors(s, u, s.groups.Keys);
  }

  lemma {:induction false} Successors(s: State, u: UserId, among: set<GroupId>) returns (heirs: map<GroupId, UserId>)
    ensures forall g :: g in among && PassedOn(s, u, g) ==> g in heirs && IsHeir(s.members, g, u, heirs[g])
    decreases among
  {
    heirs := map[];
    if g :| g in among && PassedOn(s, u, g) {
      var rest := Successors(s, u, among - {g});
      var k :| k in s.members && k.0 == g && k.1 != u && s.members[k].role == Member;
      var h := Longest(s.members, g, u, s.members.Keys, k);
      heirs := rest[g := h];
    }
  }

  /** The user's rows and those of dead groups go, the successor's becomes the owner's, the others stay. */
  lemma EraseRows(s: State, u: UserId, heirs: map<GroupId, UserId>, k: (GroupId, UserId))
    requires Known(s) && Enabled(s, Erase(u, heirs))
    ensures var s' := Step(s, Erase(u, heirs));
            At(s'.members, k) ==
            if k.1 == u || k.0 !in s'.groups then None
            else if k in s.members && s.groups[k.0].owner == u && s'.groups[k.0].owner == k.1
                 then Some(Membership(Owner, s.members[k].since))
            else At(s.members, k)
  {
  }

  // ---------------------------------------------------------------- private groups, from their creation

  /** In the group or invited to it. */
  predicate Guest(s: State, g: GroupId, v: UserId) {
    HasRole(s.members, g, v, {Member, Owner, Invited})
  }

  predicate Invites(s: State, e: Event, g: GroupId, v: UserId) {
    e.Invite? && e.group == g && e.target == v && HasRole(s.members, g, e.user, {Member, Owner})
  }

  lemma NewGuest(s: State, e: Event, g: GroupId, v: UserId)
    requires Known(s) && g in s.groups && s.groups[g].visibility == Private && g in Step(s, e).groups
    requires Guest(Step(s, e), g, v) && !Guest(s, g, v)
    ensures Invites(s, e, g, v)
  {
  }

  lemma StepKeepsVisibility(s: State, e: Event, g: GroupId)
    requires Known(s) && g in s.groups && s.groups[g].visibility == Private && g in Step(s, e).groups
    ensures Step(s, e).groups[g].visibility == Private
  {
  }

  lemma {:induction false} GuestsAreInvited(s: State, events: seq<Event>, g: GroupId, v: UserId)
    requires Known(s) && g in s.groups && s.groups[g].visibility == Private && g in Run(s, events).groups
    requires Guest(Run(s, events), g, v)
    ensures Guest(s, g, v) || exists i :: 0 <= i < |events| && Invites(Run(s, events[..i]), events[i], g, v)
    decreases |events|
  {
    if events != [] {
      var s', rest := Step(s, events[0]), events[1..];
      StepKeepsKnown(s, events[0]);
      if g !in s'.groups {
        assert g in s'.used;
        NotReused(s', rest, g);
      }
      StepKeepsVisibility(s, events[0], g);
      GuestsAreInvited(s', rest, g, v);
      if Guest(s', g, v) {
        if !Guest(s, g, v) {
          NewGuest(s, events[0], g, v);
          assert events[..0] == [] && Invites(Run(s, events[..0]), events[0], g, v);
        }
      } else {
        var i :| 0 <= i < |rest| && Invites(Run(s', rest[..i]), rest[i], g, v);
        PrefixRun(s, events, i);
        assert Invites(Run(s, events[..i + 1]), events[i + 1], g, v);
      }
    }
  }

  /**
    Main result: from its creation on, nobody but its creator is ever in a private group without
    having been invited by somebody who was in it.
   */
  lemma OnlyByInvitation(s: State, u: UserId, g: GroupId, now: int, events: seq<Event>, v: UserId)
    requires Known(s) && u in s.joined && g !in s.used && v != u
    requires var s' := Run(Step(s, Create(u, g, Private, now)), events);
             g in s'.groups && v in Occupied(s'.members, g)
    ensures var s1 := Step(s, Create(u, g, Private, now));
            exists i :: 0 <= i < |events| && Invites(Run(s1, events[..i]), events[i], g, v)
  {
    var create := Create(u, g, Private, now);
    CreateOutcome(s, u, g, Private, now);
    StepKeepsKnown(s, create);
    GuestsAreInvited(Step(s, create), events, g, v);
  }
}
