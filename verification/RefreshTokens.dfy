/**
  Refresh-token families (handlers/account.go and the refresh_tokens statements): rotation with
  replay detection, as in section 10.4 of RFC 6749 and section 4.14.2 of RFC 9700. Each
  transaction is one event; an event whose guard fails changes nothing. Login runs outside a
  transaction: checking the password and inserting the token are two events.
 */
module RefreshTokens {
  import opened Common

  type UserId = int
  type Hash = string
  type Family = string
  type Session = nat

  /** One row; the table is keyed by the unique `token_hash`, `id` is unique as well. */
  datatype Token = Token(
    id: int, user: UserId, scope: string, expiresAt: int,
    family: Family, device: string, rotatedFrom: Option<int>, revoked: bool)

  type Table = map<Hash, Token>

  /** `checked` are the logins between their password check and their insert. */
  datatype State = State(tokens: Table, users: set<UserId>, deleted: set<UserId>, checked: map<Session, UserId>)

  /** Values the database or the random source hands out: unused so far. */
  datatype Minted = Minted(id: int, hash: Hash, family: Family, expiresAt: int)

  datatype Event =
    | Register(user: UserId, device: string, scope: string, minted: Minted)
    | CheckLogin(session: Session, user: UserId)
    | Issue(session: Session, device: string, scope: string, minted: Minted)
    | Refresh(hash: Hash, device: string, now: int, minted: Minted)
    | RevokeToken(hash: Hash)
    | ResetPassword(user: UserId)
    | DeleteAccount(user: UserId)

  predicate Unused(t: Table, id: int, hash: Hash) {
    hash !in t && forall h :: h in t ==> t[h].id != id
  }

  predicate UnusedFamily(t: Table, f: Family) {
    forall h :: h in t ==> t[h].family != f
  }

  // ---------------------------------------------------------------- the statements

  function FamilyRevoked(t: Table, f: Family): Table {
    map h | h in t :: if t[h].family == f then t[h].(revoked := true) else t[h]
  }

  function UserRevoked(t: Table, u: UserId): Table {
    map h | h in t :: if t[h].user == u then t[h].(revoked := true) else t[h]
  }

  // ---------------------------------------------------------------- the handlers

  datatype Judgement = Unknown | Replayed | Expired | WrongDevice | NoUser | Rotatable

  /** The refresh handler's checks, in its order. */
  function Judge(s: State, hash: Hash, device: string, now: int): Judgement {
    if hash !in s.tokens then Unknown
    else if s.tokens[hash].revoked then Replayed
    else if now > s.tokens[hash].expiresAt then Expired
    else if s.tokens[hash].device != device then WrongDevice
    else if s.tokens[hash].user !in s.users - s.deleted then NoUser
    else Rotatable
  }

  function Rotated(t: Table, hash: Hash, minted: Minted): Table
    requires hash in t
  {
    var last := t[hash];
    t[hash := last.(revoked := true)]
     [minted.hash := Token(minted.id, last.user, last.scope, minted.expiresAt, last.family, last.device,
                           Some(last.id), false)]
  }

  function Issued(t: Table, user: UserId, device: string, scope: string, minted: Minted): Table {
    t[minted.hash := Token(minted.id, user, scope, minted.expiresAt, minted.family, device, None, false)]
  }

  predicate Enabled(s: State, e: Event) {
    match e
    case Register(u, _, _, f) => u !in s.users && Unused(s.tokens, f.id, f.hash) && UnusedFamily(s.tokens, f.family)
    case CheckLogin(session, u) => session !in s.checked && u in s.users - s.deleted
    case Issue(session, _, _, f) =>
      session in s.checked && Unused(s.tokens, f.id, f.hash) && UnusedFamily(s.tokens, f.family)
    case Refresh(_, _, _, f) => Unused(s.tokens, f.id, f.hash)
    case RevokeToken(_) => true
    case ResetPassword(u) => u in s.users - s.deleted
    case DeleteAccount(u) => u in s.users
  }

  function Step(s: State, e: Event): State {
    if !Enabled(s, e) then s else
    match e
    case Register(u, d, scope, f) => s.(users := s.users + {u}, tokens := Issued(s.tokens, u, d, scope, f))
    case CheckLogin(session, u) => s.(checked := s.checked[session := u])
    case Issue(session, d, scope, f) =>
      s.(tokens := Issued(s.tokens, s.checked[session], d, scope, f), checked := s.checked - {session})
    case Refresh(h, d, now, f) => (
      match Judge(s, h, d, now)
      case Replayed => s.(tokens := FamilyRevoked(s.tokens, s.tokens[h].family))
      case WrongDevice => s.(tokens := FamilyRevoked(s.tokens, s.tokens[h].family))
      case Rotatable => s.(tokens := Rotated(s.tokens, h, f))
      case _ => s)
    case RevokeToken(h) =>
      if h in s.tokens then s.(tokens := FamilyRevoked(s.tokens, s.tokens[h].family)) else s
    case ResetPassword(u) => s.(tokens := UserRevoked(s.tokens, u))
    case DeleteAccount(u) => s.(deleted := s.deleted + {u}, tokens := UserRevoked(s.tokens, u))
  }

  function Run(s: State, events: seq<Event>): State
    decreases |events|
  {
    if events == [] then s else Run(Step(s, events[0]), events[1..])
  }

  const INITIAL := State(map[], {}, {}, map[])

  // ---------------------------------------------------------------- chains

  /**
    The family's tokens, oldest first: each rotated from the one before, all for one user,
    device and scope, and all but the last revoked.
   */
  ghost predicate IsChain(t: Table, f: Family, c: seq<Hash>) {
    && c != []
    && (forall i :: 0 <= i < |c| ==> c[i] in t && t[c[i]].family == f)
    && (forall i, j :: 0 <= i < j < |c| ==> c[i] != c[j])
    && t[c[0]].rotatedFrom == None
    && (forall i :: 0 < i < |c| ==> LinkedAt(t, c, i))
    && (forall i :: 0 <= i < |c| - 1 ==> t[c[i]].revoked)
  }

  predicate LinkedAt(t: Table, c: seq<Hash>, i: nat)
    requires 0 < i < |c| && c[0] in t && c[i - 1] in t && c[i] in t
  {
    && t[c[i]].rotatedFrom == Some(t[c[i - 1]].id)
    && t[c[i]].user == t[c[0]].user && t[c[i]].device == t[c[0]].device && t[c[i]].scope == t[c[0]].scope
  }

  /** `chains` lists every family, and every token is on its family's chain. */
  ghost predicate Chained(t: Table, chains: map<Family, seq<Hash>>) {
    && (forall f :: f in chains ==> IsChain(t, f, chains[f]))
    && (forall h :: h in t ==> t[h].family in chains && h in chains[t[h].family])
  }

  ghost predicate Good(s: State) {
    && (exists chains :: Chained(s.tokens, chains))
    && IdsUnique(s.tokens)
    && OwnersKnown(s)
  }

  /** A chain survives what leaves its tokens alone or revokes them. */
  lemma ChainSurvives(t: Table, t': Table, f: Family, c: seq<Hash>)
    requires IsChain(t, f, c)
    requires forall h :: h in c ==> h in t' && (t'[h] == t[h] || t'[h] == t[h].(revoked := true))
    ensures IsChain(t', f, c)
  {
    forall i | 0 <= i < |c| ensures c[i] in t' && (t'[c[i]] == t[c[i]] || t'[c[i]] == t[c[i]].(revoked := true)) {
      assert c[i] in c;
    }
    forall i | 0 < i < |c| ensures LinkedAt(t', c, i) {
      assert LinkedAt(t, c, i);
    }
  }

  lemma ChainSurvivesRevocation(t: Table, t': Table, chains: map<Family, seq<Hash>>)
    requires Chained(t, chains) && OnlyRevoked(t, t')
    ensures Chained(t', chains)
  {
    forall f | f in chains ensures IsChain(t', f, chains[f]) {
      ChainSurvives(t, t', f, chains[f]);
    }
  }

  lemma IssueKeepsChained(t: Table, chains: map<Family, seq<Hash>>, u: UserId, d: string, scope: string, f: Minted)
    requires Chained(t, chains) && Unused(t, f.id, f.hash) && UnusedFamily(t, f.family)
    ensures Chained(Issued(t, u, d, scope, f), chains[f.family := [f.hash]])
  {
    var t', chains' := Issued(t, u, d, scope, f), chains[f.family := [f.hash]];
    assert forall g :: g in chains ==> chains[g][0] in t && t[chains[g][0]].family == g;
    forall g | g in chains' ensures IsChain(t', g, chains'[g]) {
      if g != f.family {
        ChainSurvives(t, t', g, chains[g]);
      }
    }
  }

  /** The token being rotated is the last of its chain: it is not revoked. */
  lemma LiveIsLast(t: Table, chains: map<Family, seq<Hash>>, h: Hash)
    requires Chained(t, chains) && h in t && !t[h].revoked
    ensures chains[t[h].family][|chains[t[h].family]| - 1] == h
  {
  }

  lemma RotateExtendsChain(t: Table, c: seq<Hash>, h: Hash, f: Minted)
    requires h in t && !t[h].revoked && Unused(t, f.id, f.hash)
    requires IsChain(t, t[h].family, c) && c[|c| - 1] == h
    ensures IsChain(Rotated(t, h, f), t[h].family, c + [f.hash])
  {
    var t', c' := Rotated(t, h, f), c + [f.hash];
    forall i | 0 <= i < |c| ensures c'[i] == c[i] && c'[i] in t && c'[i] != f.hash {
    }
    assert c'[|c|] == f.hash;
    forall i | 0 < i < |c'| ensures LinkedAt(t', c', i) {
      assert i < |c| ==> LinkedAt(t, c, i);
      assert |c| > 1 ==> LinkedAt(t, c, |c| - 1);
    }
  }

  lemma RotateLeavesOthers(t: Table, chains: map<Family, seq<Hash>>, h: Hash, f: Minted, g: Family)
    requires Chained(t, chains) && h in t && Unused(t, f.id, f.hash) && g in chains && g != t[h].family
    ensures IsChain(Rotated(t, h, f), g, chains[g])
  {
    assert IsChain(t, g, chains[g]);
    ChainSurvives(t, Rotated(t, h, f), g, chains[g]);
  }

  lemma RotateCovers(t: Table, chains: map<Family, seq<Hash>>, h: Hash, f: Minted, k: Hash)
    requires Chained(t, chains) && h in t && k in Rotated(t, h, f)
    ensures var fam, family := t[h].family, Rotated(t, h, f)[k].family;
            var chains' := chains[fam := chains[fam] + [f.hash]];
            family in chains' && k in chains'[family]
  {
    var fam := t[h].family;
    assert (chains[fam] + [f.hash])[|chains[fam]|] == f.hash;
    assert k != f.hash ==> k in t && k in chains[t[k].family];
  }

  lemma RotateKeepsChained(t: Table, chains: map<Family, seq<Hash>>, h: Hash, f: Minted)
    requires Chained(t, chains) && h in t && !t[h].revoked && Unused(t, f.id, f.hash)
    ensures var fam := t[h].family; Chained(Rotated(t, h, f), chains[fam := chains[fam] + [f.hash]])
  {
    var fam, t' := t[h].family, Rotated(t, h, f);
    var chains' := chains[fam := chains[fam] + [f.hash]];
    forall g | g in chains' ensures IsChain(t', g, chains'[g]) {
      if g == fam {
        LiveIsLast(t, chains, h);
        RotateExtendsChain(t, chains[fam], h, f);
      } else {
        RotateLeavesOthers(t, chains, h, f, g);
      }
    }
    forall k | k in t' ensures t'[k].family in chains' && k in chains'[t'[k].family] {
      RotateCovers(t, chains, h, f, k);
    }
  }

  /** The events that add a token; all others only revoke. */
  predicate Issues(s: State, e: Event) {
    Enabled(s, e) && (e.Register? || e.Issue?)
  }

  predicate Rotates(s: State, e: Event) {
    Enabled(s, e) && e.Refresh? && Judge(s, e.hash, e.device, e.now) == Rotatable
  }

  ghost predicate OnlyRevoked(t: Table, t': Table) {
    t'.Keys == t.Keys && forall h :: h in t ==> t'[h] == t[h] || t'[h] == t[h].(revoked := true)
  }

  /** Whom a new token is for. */
  function Holder(s: State, e: Event): UserId
    requires Issues(s, e)
  {
    if e.Register? then e.user else s.checked[e.session]
  }

  lemma TokensAfter(s: State, e: Event)
    ensures Issues(s, e) ==> Step(s, e).tokens == Issued(s.tokens, Holder(s, e), e.device, e.scope, e.minted)
    ensures Rotates(s, e) ==> Step(s, e).tokens == Rotated(s.tokens, e.hash, e.minted)
    ensures !Issues(s, e) && !Rotates(s, e) ==> OnlyRevoked(s.tokens, Step(s, e).tokens)
  {
  }

  ghost predicate IdsUnique(t: Table) {
    forall g, h :: g in t && h in t && t[g].id == t[h].id ==> g == h
  }

  ghost predicate OwnersKnown(s: State) {
    && (forall h :: h in s.tokens ==> s.tokens[h].user in s.users)
    && (forall session :: session in s.checked ==> s.checked[session] in s.users)
    && s.deleted <= s.users
  }

  lemma StepKeepsChained(s: State, e: Event, chains: map<Family, seq<Hash>>) returns (chains': map<Family, seq<Hash>>)
    requires Chained(s.tokens, chains)
    ensures Chained(Step(s, e).tokens, chains')
  {
    TokensAfter(s, e);
    if Issues(s, e) {
      IssueKeepsChained(s.tokens, chains, Holder(s, e), e.device, e.scope, e.minted);
      chains' := chains[e.minted.family := [e.minted.hash]];
    } else if Rotates(s, e) {
      RotateKeepsChained(s.tokens, chains, e.hash, e.minted);
      var f := s.tokens[e.hash].family;
      chains' := chains[f := chains[f] + [e.minted.hash]];
    } else {
      chains' := chains;
      ChainSurvivesRevocation(s.tokens, Step(s, e).tokens, chains);
    }
  }

  lemma AddKeepsIdsUnique(t: Table, h: Hash, token: Token)
    requires IdsUnique(t) && Unused(t, token.id, h)
    ensures IdsUnique(t[h := token])
  {
  }

  lemma RevokeKeepsIdsUnique(t: Table, t': Table)
    requires IdsUnique(t) && OnlyRevoked(t, t')
    ensures IdsUnique(t')
  {
    forall g, h | g in t' && h in t' && t'[g].id == t'[h].id ensures g == h {
      assert t[g].id == t[h].id;
    }
  }

  lemma StepKeepsIdsUnique(s: State, e: Event)
    requires IdsUnique(s.tokens)
    ensures IdsUnique(Step(s, e).tokens)
  {
    TokensAfter(s, e);
    var t, t' := s.tokens, Step(s, e).tokens;
    if Issues(s, e) {
      AddKeepsIdsUnique(t, e.minted.hash, t'[e.minted.hash]);
    } else if Rotates(s, e) {
      var revoked := t[e.hash := t[e.hash].(revoked := true)];
      RevokeKeepsIdsUnique(t, revoked);
      AddKeepsIdsUnique(revoked, e.minted.hash, t'[e.minted.hash]);
    } else {
      RevokeKeepsIdsUnique(t, t');
    }
  }

  lemma StepKeepsOwnersKnown(s: State, e: Event)
    requires OwnersKnown(s)
    ensures OwnersKnown(Step(s, e))
  {
  }

  lemma StepKeepsGood(s: State, e: Event)
    requires Good(s)
    ensures Good(Step(s, e))
  {
    var chains :| Chained(s.tokens, chains);
    var chains' := StepKeepsChained(s, e, chains);
    StepKeepsIdsUnique(s, e);
    StepKeepsOwnersKnown(s, e);
  }

  /** Main result: every reachable table is a set of chains. */
  lemma {:induction false} RunKeepsGood(s: State, events: seq<Event>)
    requires Good(s)
    ensures Good(Run(s, events))
    decreases |events|
  {
    if events != [] {
      StepKeepsGood(s, events[0]);
      RunKeepsGood(Step(s, events[0]), events[1..]);
    }
  }

  predicate LiveTogether(t: Table, g: Hash, h: Hash) {
    g in t && h in t && t[g].family == t[h].family && !t[g].revoked && !t[h].revoked
  }

  /** What being chained means for callers. */
  lemma AtMostOneLive(s: State, g: Hash, h: Hash)
    requires Good(s) && LiveTogether(s.tokens, g, h)
    ensures g == h
  {
    var chains :| Chained(s.tokens, chains);
    LiveIsLast(s.tokens, chains, g);
    LiveIsLast(s.tokens, chains, h);
  }

  /** From the empty table on: one live token per family, every token a known user's. */
  lemma FamilySafety(events: seq<Event>)
    ensures var s := Run(INITIAL, events);
            && Good(s)
            && (forall g, h :: LiveTogether(s.tokens, g, h) ==> g == h)
            && (forall h :: h in s.tokens ==> s.tokens[h].user in s.users)
  {
    var none: map<Family, seq<Hash>> := map[];
    assert Chained(INITIAL.tokens, none);
    RunKeepsGood(INITIAL, events);
    var s := Run(INITIAL, events);
    forall g, h | LiveTogether(s.tokens, g, h) ensures g == h {
      AtMostOneLive(s, g, h);
    }
  }

  /** Where a rotated-in token comes from, whatever the event: a live, unexpired one on its own device. */
  lemma SuccessorOrigin(s: State, e: Event, h: Hash)
    requires h !in s.tokens && h in Step(s, e).tokens && Step(s, e).tokens[h].rotatedFrom.Some?
    ensures e.Refresh? && e.hash in s.tokens && Step(s, e).tokens[h].rotatedFrom == Some(s.tokens[e.hash].id)
    ensures var last := s.tokens[e.hash];
            var next := Step(s, e).tokens[h];
            && !last.revoked && e.now <= last.expiresAt && e.device == last.device
            && last.user in s.users && last.user !in s.deleted
            && (next.user, next.device, next.scope, next.family) == (last.user, last.device, last.scope, last.family)
            && Step(s, e).tokens[e.hash].revoked
  {
  }

  // ---------------------------------------------------------------- what each event does, on the rows

  /** Nothing but this row differs. */
  ghost predicate OnlyRow(t: Table, t': Table, h: Hash) {
    forall k :: k != h ==> (k in t' <==> k in t) && (k in t ==> t'[k] == t[k])
  }

  /** Registration and login store what they were asked for, as a new and live family. */
  lemma NewTokenHolds(s: State, e: Event)
    requires Enabled(s, e) && (e.Register? || e.Issue?)
    ensures var t := Step(s, e).tokens;
            && e.minted.hash in t && OnlyRow(s.tokens, t, e.minted.hash)
            && t[e.minted.hash].id == e.minted.id && t[e.minted.hash].family == e.minted.family
            && t[e.minted.hash].device == e.device && t[e.minted.hash].scope == e.scope
            && t[e.minted.hash].user == (if e.Register? then e.user else s.checked[e.session])
            && t[e.minted.hash].expiresAt == e.minted.expiresAt
            && t[e.minted.hash].rotatedFrom == None && !t[e.minted.hash].revoked
    ensures Step(s, e).deleted == s.deleted && Step(s, e).users == s.users + if e.Register? then {e.user} else {}
  {
  }

  /** A login checks a living user, once a session, and inserts for that user. */
  lemma LoginMeans(s: State, session: Session, u: UserId, device: string, scope: string, f: Minted)
    ensures Enabled(s, CheckLogin(session, u)) <==> session !in s.checked && u in s.users && u !in s.deleted
    ensures Enabled(s, CheckLogin(session, u)) ==>
              Step(s, CheckLogin(session, u)) == s.(checked := s.checked[session := u])
    ensures Step(s, Issue(session, device, scope, f)).checked == s.checked
            || Step(s, Issue(session, device, scope, f)).checked == s.checked - {session}
    ensures Enabled(s, Issue(session, device, scope, f)) ==>
              session in s.checked && session !in Step(s, Issue(session, device, scope, f)).checked
  {
  }

  /** Revoked in `t'` what `hit` says, and nothing else changed. */
  ghost predicate RevokedWhere(t: Table, t': Table, hit: Hash -> bool) {
    t'.Keys == t.Keys && forall h :: h in t ==> t'[h] == if hit(h) then t[h].(revoked := true) else t[h]
  }

  predicate Presented(t: Table, e: Event)
  {
    e.Refresh? && e.hash in t
  }

  /** Live, unexpired, from its own device, of a living user. */
  predicate Refreshable(s: State, e: Event) {
    && Presented(s.tokens, e) && !s.tokens[e.hash].revoked && e.now <= s.tokens[e.hash].expiresAt
    && e.device == s.tokens[e.hash].device
    && s.tokens[e.hash].user in s.users && s.tokens[e.hash].user !in s.deleted
  }

  /** Revoked already, or unexpired and from another device. */
  predicate Misused(s: State, e: Event) {
    && Presented(s.tokens, e)
    && (s.tokens[e.hash].revoked || (e.now <= s.tokens[e.hash].expiresAt && e.device != s.tokens[e.hash].device))
  }

  /** Main result: what a refresh does, in its three cases, on the rows alone. */
  lemma RefreshOutcome(s: State, e: Event)
    requires e.Refresh? && Enabled(s, e)
    ensures Refreshable(s, e) ==>
              var t, last := Step(s, e).tokens, s.tokens[e.hash];
              && e.minted.hash in t && e.hash in t && t[e.hash] == last.(revoked := true)
              && (forall k :: k != e.minted.hash && k != e.hash ==>
                  (k in t <==> k in s.tokens) && (k in t ==> t[k] == s.tokens[k]))
              && t[e.minted.hash] == Token(e.minted.id, last.user, last.scope, e.minted.expiresAt,
                                           last.family, last.device, Some(last.id), false)
    ensures Misused(s, e) ==>
              RevokedWhere(s.tokens, Step(s, e).tokens,
                           h => h in s.tokens && s.tokens[h].family == s.tokens[e.hash].family)
    ensures !Refreshable(s, e) && !Misused(s, e) ==> Step(s, e) == s
    ensures Step(s, e).users == s.users && Step(s, e).deleted == s.deleted && Step(s, e).checked == s.checked
  {
  }

  /** Signing out revokes the token's family. */
  lemma SignOutOutcome(s: State, h: Hash)
    ensures h !in s.tokens ==> Step(s, RevokeToken(h)) == s
    ensures h in s.tokens ==>
              RevokedWhere(s.tokens, Step(s, RevokeToken(h)).tokens,
                           k => k in s.tokens && s.tokens[k].family == s.tokens[h].family)
  {
  }

  /** A reset of a living user revokes what they hold. */
  lemma ResetOutcome(s: State, u: UserId)
    ensures u in s.users && u !in s.deleted ==>
              RevokedWhere(s.tokens, Step(s, ResetPassword(u)).tokens, k => k in s.tokens && s.tokens[k].user == u)
    ensures u !in s.users || u in s.deleted ==> Step(s, ResetPassword(u)) == s
  {
  }

  /** A deletion does so and marks the user. */
  lemma DeletionOutcome(s: State, u: UserId)
    ensures u in s.users ==>
              && RevokedWhere(s.tokens, Step(s, DeleteAccount(u)).tokens, k => k in s.tokens && s.tokens[k].user == u)
              && Step(s, DeleteAccount(u)).deleted == s.deleted + {u}
    ensures u !in s.users ==> Step(s, DeleteAccount(u)) == s
  {
  }

  /** Apart from being revoked, a token's row never changes. */
  lemma {:induction false} RowFixed(s: State, events: seq<Event>, h: Hash)
    requires h in s.tokens
    ensures h in Run(s, events).tokens
    ensures Run(s, events).tokens[h].(revoked := true) == s.tokens[h].(revoked := true)
    decreases |events|
  {
    if events != [] {
      TokensAfter(s, events[0]);
      RowFixed(Step(s, events[0]), events[1..], h);
    }
  }

  /**
    Main result: through every continuation of a registration or login, as long as the token is not
    revoked and its user lives, a refresh from the device that signed in, before the token expires,
    is granted and leaves a live successor for the same user, device and scope.
   */
  lemma RefreshSucceeds(s: State, e: Event, events: seq<Event>, refresh: Event)
    requires Enabled(s, e) && (e.Register? || e.Issue?)
    requires var later := Run(Step(s, e), events);
             && refresh.Refresh? && Enabled(later, refresh) && refresh.hash == e.minted.hash
             && refresh.device == e.device && refresh.now <= e.minted.expiresAt
             && (refresh.hash in later.tokens ==>
                   && !later.tokens[refresh.hash].revoked
                   && later.tokens[refresh.hash].user in later.users
                   && later.tokens[refresh.hash].user !in later.deleted)
    ensures var t := Step(Run(Step(s, e), events), refresh).tokens;
            && refresh.minted.hash in t && !t[refresh.minted.hash].revoked
            && t[refresh.minted.hash].device == e.device && t[refresh.minted.hash].scope == e.scope
            && t[refresh.minted.hash].user == (if e.Register? then e.user else s.checked[e.session])
            && t[refresh.minted.hash].family == e.minted.family
  {
    NewTokenHolds(s, e);
    RowFixed(Step(s, e), events, e.minted.hash);
    RefreshOutcome(Run(Step(s, e), events), refresh);
  }

  // ---------------------------------------------------------------- deleted users

  /** No deleted user holds a live token. */
  ghost predicate DeletedHoldNothing(s: State) {
    forall h :: h in s.tokens && s.tokens[h].user in s.deleted ==> s.tokens[h].revoked
  }

  /** A login whose user was deleted between the check and the insert. */
  predicate Late(s: State, e: Event) {
    Enabled(s, e) && e.Issue? && s.checked[e.session] in s.deleted
  }

  lemma LateIssueIsLive(s: State, e: Event)
    requires Late(s, e)
    ensures !DeletedHoldNothing(Step(s, e))
  {
    var t := Step(s, e).tokens;
    assert e.minted.hash in t && t[e.minted.hash].user in Step(s, e).deleted && !t[e.minted.hash].revoked;
  }

  lemma OtherwiseHoldNothing(s: State, e: Event)
    requires OwnersKnown(s) && DeletedHoldNothing(s) && !Late(s, e)
    ensures DeletedHoldNothing(Step(s, e))
  {
  }

  /** The failing case is real: from any state with a living user, check, delete, insert. */
  lemma DeletionSurvived(s: State, u: UserId, session: Session, device: string, scope: string, f: Minted)
    requires u in s.users - s.deleted && session !in s.checked
    requires Unused(s.tokens, f.id, f.hash) && UnusedFamily(s.tokens, f.family)
    ensures var s' := Step(Step(Step(s, CheckLogin(session, u)), DeleteAccount(u)), Issue(session, device, scope, f));
            && f.hash in s'.tokens && !s'.tokens[f.hash].revoked && s'.tokens[f.hash].user == u && u in s'.deleted
  {
    var s2 := Step(Step(s, CheckLogin(session, u)), DeleteAccount(u));
    assert s2.tokens == UserRevoked(s.tokens, u);
    assert forall h :: h in s2.tokens ==> s2.tokens[h].(revoked := true) == s.tokens[h].(revoked := true);
    assert Enabled(s2, Issue(session, device, scope, f));
  }

  /** ... and it is reached: a registration is such a state. */
  lemma LateLoginReachable()
    ensures exists events :: !DeletedHoldNothing(Run(INITIAL, events))
  {
    var first, second := Minted(1, "a", "f", 10), Minted(2, "b", "g", 10);
    var register, check, delete := Register(7, "d", "mobile", first), CheckLogin(0, 7), DeleteAccount(7);
    var issue := Issue(0, "d", "mobile", second);
    var s1 := Step(INITIAL, register);
    assert s1.tokens == map["a" := Token(1, 7, "mobile", 10, "f", "d", None, false)];
    DeletionSurvived(s1, 7, 0, "d", "mobile", second);
    RunThree(s1, check, delete, issue);
    assert ([register] + [check, delete, issue])[1..] == [check, delete, issue];
    assert !DeletedHoldNothing(Run(INITIAL, [register] + [check, delete, issue]));
  }

  lemma RunThree(s: State, c: Event, d: Event, e: Event)
    ensures Run(s, [c, d, e]) == Step(Step(Step(s, c), d), e)
  {
    assert [c, d, e][1..] == [d, e] && [d, e][1..] == [e] && [e][1..] == [];
    assert Run(Step(Step(s, c), d), [e]) == Step(Step(Step(s, c), d), e);
    assert Run(Step(s, c), [d, e]) == Run(Step(Step(s, c), d), [e]);
  }

  /** What survives without exception: a deleted user's token is of no use in any later state. */
  lemma {:induction false} DeletedNeverRefresh(s: State, events: seq<Event>, h: Hash, device: string, now: int)
    requires h in s.tokens && s.tokens[h].user in s.deleted
    ensures h in Run(s, events).tokens && Judge(Run(s, events), h, device, now) != Rotatable
    decreases |events|
  {
    if events != [] {
      DeletedNeverRefresh(Step(s, events[0]), events[1..], h, device, now);
    }
  }

  // ---------------------------------------------------------------- replay

  /** A family in use, none of whose tokens can be refreshed again. */
  ghost predicate Dead(t: Table, f: Family) {
    && (exists h :: h in t && t[h].family == f)
    && (forall h :: h in t && t[h].family == f ==> t[h].revoked)
  }

  lemma StepKeepsDead(s: State, e: Event, f: Family)
    requires Dead(s.tokens, f)
    ensures Dead(Step(s, e).tokens, f)
  {
    var h :| h in s.tokens && s.tokens[h].family == f;
    assert h in Step(s, e).tokens && Step(s, e).tokens[h].family == f;
  }

  lemma {:induction false} DeadForever(s: State, events: seq<Event>, f: Family)
    requires Dead(s.tokens, f)
    ensures Dead(Run(s, events).tokens, f)
    decreases |events|
  {
    if events != [] {
      StepKeepsDead(s, events[0], f);
      DeadForever(Step(s, events[0]), events[1..], f);
    }
  }

  /**
    Main result: presenting a revoked token, or a live one from the wrong device, ends the
    family; so does revoking it. No later state has a live token of that family.
   */
  lemma MisuseEndsFamily(s: State, e: Event, later: seq<Event>)
    requires Enabled(s, e) && (e.Refresh? || e.RevokeToken?) && e.hash in s.tokens
    requires e.Refresh? ==> Judge(s, e.hash, e.device, e.now) in {Replayed, WrongDevice}
    ensures Dead(Run(Step(s, e), later).tokens, s.tokens[e.hash].family)
  {
    var f := s.tokens[e.hash].family;
    var s' := Step(s, e);
    assert e.hash in s'.tokens && s'.tokens[e.hash].family == f;
    DeadForever(s', later, f);
  }

  lemma {:induction false} OnceRotatedStaysRevoked(s: State, events: seq<Event>, h: Hash)
    requires h in s.tokens && s.tokens[h].revoked
    ensures h in Run(s, events).tokens && Run(s, events).tokens[h] == s.tokens[h]
    decreases |events|
  {
    if events != [] {
      OnceRotatedStaysRevoked(Step(s, events[0]), events[1..], h);
    }
  }

  /**
    The theft scenario end to end: a token is rotated, anything happens, the rotated token is
    presented again, anything happens: nobody holds a live token of that family, not even the
    one who rotated it.
   */
  lemma ReplayAfterRotation(s: State, first: Event, between: seq<Event>, replay: Event, later: seq<Event>)
    requires Enabled(s, first) && first.Refresh? && Judge(s, first.hash, first.device, first.now) == Rotatable
    requires replay.Refresh? && replay.hash == first.hash && Enabled(Run(Step(s, first), between), replay)
    ensures Dead(Run(Step(Run(Step(s, first), between), replay), later).tokens, s.tokens[first.hash].family)
  {
    OnceRotatedStaysRevoked(Step(s, first), between, first.hash);
    MisuseEndsFamily(Run(Step(s, first), between), replay, later);
  }

  // ---------------------------------------------------------------- the token table

  class TokenStore {
    var tokens: Table
    var users: set<UserId>
    var deleted: set<UserId>
    var checked: map<Session, UserId>

    ghost function View(): State
      reads this
    {
      State(tokens, users, deleted, checked)
    }

    constructor ()
      ensures View() == INITIAL
    {
      tokens, users, deleted, checked := map[], {}, {}, map[];
    }

    /** UPDATE ... SET revoked_at WHERE token_hash = $1 AND revoked_at IS NULL; the number of rows hit. */
    method RevokeOne(hash: Hash) returns (rows: nat)
      modifies this`tokens
      ensures rows == if hash in old(tokens) && !old(tokens)[hash].revoked then 1 else 0
      ensures tokens == if hash !in old(tokens) then old(tokens)
                        else old(tokens)[hash := old(tokens)[hash].(revoked := true)]
    {
      rows := 0;
      if hash in tokens && !tokens[hash].revoked {
        tokens := tokens[hash := tokens[hash].(revoked := true)];
        rows := 1;
      }
    }

    method RevokeFamily(family: Family)
      modifies this`tokens
      ensures tokens == FamilyRevoked(old(tokens), family)
    {
      tokens := map h | h in tokens :: if tokens[h].family == family then tokens[h].(revoked := true) else tokens[h];
    }

    method Create(hash: Hash, token: Token)
      requires Unused(tokens, token.id, hash)
      modifies this`tokens
      ensures tokens == old(tokens)[hash := token]
    {
      tokens := tokens[hash := token];
    }

    /** Revoke the old token, then issue its successor; the fallback for a lost race cannot happen. */
    method Rotate(hash: Hash, minted: Minted)
      requires hash in tokens && !tokens[hash].revoked && Unused(tokens, minted.id, minted.hash)
      modifies this`tokens
      ensures tokens == Rotated(old(tokens), hash, minted)
    {
      var stored := tokens[hash];
      var rows := RevokeOne(hash);
      if rows != 1 {
        assert false;
      }
      Create(minted.hash, Token(minted.id, stored.user, stored.scope, minted.expiresAt,
                                stored.family, stored.device, Some(stored.id), false));
    }

    /** POST /user/token with the refresh_token grant, inside its transaction. */
    method RefreshGrant(hash: Hash, device: string, now: int, minted: Minted) returns (granted: bool)
      requires Unused(tokens, minted.id, minted.hash)
      modifies this`tokens
      ensures View() == Step(old(View()), Refresh(hash, device, now, minted))
      ensures granted <==> Judge(old(View()), hash, device, now) == Rotatable
    {
      granted := false;
      if hash !in tokens {
        return;
      }
      var stored := tokens[hash];
      if stored.revoked {
        RevokeFamily(stored.family);
        return;
      }
      if now > stored.expiresAt {
        return;
      }
      if stored.device != device {
        RevokeFamily(stored.family);
        return;
      }
      if stored.user !in users - deleted {
        return;
      }
      Rotate(hash, minted);
      granted := true;
    }

    method RevokeAll(user: UserId)
      modifies this`tokens
      ensures tokens == UserRevoked(old(tokens), user)
    {
      tokens := map h | h in tokens ::
          if tokens[h].user == user && !tokens[h].revoked then tokens[h].(revoked := true) else tokens[h];
    }

    /** Registration: the user and the first token, in one transaction. */
    method SignUp(user: UserId, device: string, scope: string, minted: Minted)
      requires user !in users && Unused(tokens, minted.id, minted.hash) && UnusedFamily(tokens, minted.family)
      modifies this`tokens, this`users
      ensures View() == Step(old(View()), Register(user, device, scope, minted))
    {
      users := users + {user};
      Create(minted.hash, Token(minted.id, user, scope, minted.expiresAt, minted.family, device, None, false));
    }

    /** Login up to the password check; `correct` is the check's outcome. */
    method CheckPassword(session: Session, user: UserId, correct: bool) returns (ok: bool)
      requires session !in checked
      modifies this`checked
      ensures ok <==> correct && user in users && user !in deleted
      ensures View() == if ok then Step(old(View()), CheckLogin(session, user)) else old(View())
    {
      if user !in users - deleted || !correct {
        return false;
      }
      checked := checked[session := user];
      return true;
    }

    /** Login after the check; nothing asks whether the user is still there. */
    method SignIn(session: Session, device: string, scope: string, minted: Minted)
      requires session in checked && Unused(tokens, minted.id, minted.hash) && UnusedFamily(tokens, minted.family)
      modifies this`tokens, this`checked
      ensures View() == Step(old(View()), Issue(session, device, scope, minted))
    {
      var user := checked[session];
      checked := checked - {session};
      Create(minted.hash, Token(minted.id, user, scope, minted.expiresAt, minted.family, device, None, false));
    }

    /** A password reset, once its code and its user are accepted: every token goes. */
    method ResetAll(user: UserId, accepted: bool) returns (ok: bool)
      modifies this`tokens
      ensures ok <==> accepted && user in users && user !in deleted
      ensures View() == if ok then Step(old(View()), ResetPassword(user)) else old(View())
    {
      if user !in users - deleted || !accepted {
        return false;
      }
      RevokeAll(user);
      return true;
    }

    method SignOut(hash: Hash)
      modifies this`tokens
      ensures View() == Step(old(View()), RevokeToken(hash))
    {
      if hash in tokens {
        RevokeFamily(tokens[hash].family);
      }
    }

    method Delete(user: UserId)
      requires user in users
      modifies this
      ensures View() == Step(old(View()), DeleteAccount(user))
    {
      deleted := deleted + {user};
      RevokeAll(user);
    }
  }
}
