/**
  Logins racing with account deletions and password resets (handlers/account.go). Both revoke every
  token of the user, but a login that has passed its check before may insert its token after. To
  tell tokens of a replaced password apart, a history is kept beside the tables: how often each
  user's password was replaced, and which of them a login was checked against.
 */
module LoginRaces {
  import opened Common
  import opened RefreshTokens
  import Runs

  /** `since` is kept per pending login, `origin` per token family. */
  datatype History = History(
    base: State,
    generation: map<UserId, nat>,
    since: map<Session, nat>,
    origin: map<Family, nat>)

  function Generation(x: History, u: UserId): nat {
    if u in x.generation then x.generation[u] else 0
  }

  function Next(x: History, e: Event): History {
    var x' := x.(base := Step(x.base, e));
    if !Enabled(x.base, e) then x' else
    match e
    case Register(u, _, _, f) => x'.(origin := x.origin[f.family := Generation(x, u)])
    case CheckLogin(session, u) => x'.(since := x.since[session := Generation(x, u)])
    case Issue(session, _, _, f) =>
      if session in x.since then x'.(origin := x.origin[f.family := x.since[session]]) else x'
    case ResetPassword(u) => x'.(generation := x.generation[u := Generation(x, u) + 1])
    case _ => x'
  }

  const START := History(INITIAL, map[], map[], map[])

  /** The history is only a record: the tables go their own way. */
  lemma {:induction false} HistoryOfRun(x: History, events: seq<Event>)
    ensures Runs.Fold(Next, x, events).base == Run(x.base, events)
    decreases |events|
  {
    if events != [] {
      HistoryOfRun(Next(x, events[0]), events[1..]);
    }
  }

  // ---------------------------------------------------------------- tokens of deleted users

  /**
    Main result: deleted users hold nothing live throughout a run if and only if no deletion
    falls between the check and the insert of one of their logins.
   */
  lemma DeletedHoldNothingIff(events: seq<Event>)
    ensures Runs.AlwaysGood(Step, s => DeletedHoldNothing(s), INITIAL, events)
       <==> Runs.NeverBad(Step, Late, INITIAL, events)
  {
    forall s, e | OwnersKnown(s)
      ensures OwnersKnown(Step(s, e)) && (DeletedHoldNothing(s) ==> (DeletedHoldNothing(Step(s, e)) <==> !Late(s, e)))
    {
      StepKeepsOwnersKnown(s, e);
      if Late(s, e) {
        LateIssueIsLive(s, e);
      } else if DeletedHoldNothing(s) {
        OtherwiseHoldNothing(s, e);
      }
    }
    Runs.AlwaysGoodIff(Step, s => OwnersKnown(s), s => DeletedHoldNothing(s), Late, INITIAL, events);
  }

  // ---------------------------------------------------------------- tokens of replaced passwords

  ghost predicate Recorded(x: History) {
    && (forall session :: session in x.base.checked ==> session in x.since)
    && (forall h :: h in x.base.tokens ==> x.base.tokens[h].family in x.origin)
  }

  /** Every live token goes back to a login with the user's present password. */
  ghost predicate Current(x: History) {
    forall h :: h in x.base.tokens && !x.base.tokens[h].revoked ==>
      && x.base.tokens[h].family in x.origin
      && x.origin[x.base.tokens[h].family] == Generation(x, x.base.tokens[h].user)
  }

  /** A login whose user's password was replaced between the check and the insert. */
  predicate Outdated(x: History, e: Event) {
    && Enabled(x.base, e) && e.Issue? && e.session in x.since
    && x.since[e.session] != Generation(x, x.base.checked[e.session])
  }

  lemma NextKeepsRecorded(x: History, e: Event)
    requires Recorded(x)
    ensures Recorded(Next(x, e))
  {
  }

  lemma OutdatedIsLive(x: History, e: Event)
    requires Outdated(x, e)
    ensures !Current(Next(x, e))
  {
    var t := Next(x, e).base.tokens;
    assert e.minted.hash in t && !t[e.minted.hash].revoked;
  }

  /** The token behind `h` after the step is new, a successor, or was there with the same family and user. */
  lemma OtherwiseCurrentAt(x: History, e: Event, h: Hash)
    requires Recorded(x) && Current(x) && !Outdated(x, e)
    requires h in Next(x, e).base.tokens && !Next(x, e).base.tokens[h].revoked
    ensures var token := Next(x, e).base.tokens[h];
            token.family in Next(x, e).origin && Next(x, e).origin[token.family] == Generation(Next(x, e), token.user)
  {
    TokensAfter(x.base, e);
    if Rotates(x.base, e) && h == e.minted.hash {
      assert e.hash in x.base.tokens && !x.base.tokens[e.hash].revoked;
    } else if !(Issues(x.base, e) && h == e.minted.hash) {
      assert h in x.base.tokens && !x.base.tokens[h].revoked;
    }
  }

  lemma OtherwiseCurrent(x: History, e: Event)
    requires Recorded(x) && Current(x) && !Outdated(x, e)
    ensures Current(Next(x, e))
  {
    forall h | h in Next(x, e).base.tokens && !Next(x, e).base.tokens[h].revoked
      ensures var token := Next(x, e).base.tokens[h];
              token.family in Next(x, e).origin && Next(x, e).origin[token.family] == Generation(Next(x, e), token.user)
    {
      OtherwiseCurrentAt(x, e, h);
    }
  }

  /**
    Main result: throughout a run every live token rests on its user's present password if and
    only if no reset falls between the check and the insert of a login.
   */
  lemma PasswordsCurrentIff(events: seq<Event>)
    ensures Runs.AlwaysGood(Next, x => Current(x), START, events)
       <==> Runs.NeverBad(Next, Outdated, START, events)
  {
    forall x, e | Recorded(x)
      ensures Recorded(Next(x, e)) && (Current(x) ==> (Current(Next(x, e)) <==> !Outdated(x, e)))
    {
      NextKeepsRecorded(x, e);
      if Outdated(x, e) {
        OutdatedIsLive(x, e);
      } else if Current(x) {
        OtherwiseCurrent(x, e);
      }
    }
    Runs.AlwaysGoodIff(Next, x => Recorded(x), x => Current(x), Outdated, START, events);
  }

  /** The failing case is real: from any state with a living user, check, reset, insert. */
  lemma ResetSurvived(x: History, u: UserId, session: Session, device: string, scope: string, f: Minted)
    requires u in x.base.users - x.base.deleted && session !in x.base.checked
    requires Unused(x.base.tokens, f.id, f.hash) && UnusedFamily(x.base.tokens, f.family)
    ensures var x' := Next(Next(Next(x, CheckLogin(session, u)), ResetPassword(u)), Issue(session, device, scope, f));
            && f.hash in x'.base.tokens && !x'.base.tokens[f.hash].revoked && x'.base.tokens[f.hash].user == u
            && !Current(x')
  {
    var x1 := Next(x, CheckLogin(session, u));
    var x2 := Next(x1, ResetPassword(u));
    assert x1.base.tokens == x.base.tokens && x2.base.tokens.Keys == x.base.tokens.Keys;
    assert OnlyRevoked(x.base.tokens, x2.base.tokens);
    assert Outdated(x2, Issue(session, device, scope, f));
    OutdatedIsLive(x2, Issue(session, device, scope, f));
  }
}
