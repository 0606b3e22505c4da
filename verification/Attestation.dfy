/**
  App Attest assertions (handlers/attest_middleware.go, handlers/attest.go): requests race on the
  stored signature counter of their key (section 6.1.1 of WebAuthn Level 2), while keys are
  enrolled, enrolled again and revoked. Reading the key, verifying, the compare-and-update and the
  re-read are separate steps of each request, and so are burning an enrolment's challenge and
  inserting its key.
 */
module Attestation {
  import opened Common

  type KeyId = string
  type RequestId = nat
  type Challenge = string

  datatype Key = Key(counter: nat, active: bool)
  datatype Outcome = Accepted | BadSignature | InvalidKey | Stale
  datatype Phase =
    | KeyRead(key: KeyId)
    | Verified(key: KeyId, counter: nat)
    | NotAdvanced(key: KeyId, counter: nat)
    | Done(key: KeyId, outcome: Outcome)

  datatype Entry = Entry(request: RequestId, key: KeyId, counter: nat)

  /** An enrolment whose challenge is burned and whose key is not inserted yet. */
  datatype Enrolment = Enrolment(key: KeyId, challenge: Challenge)

  /** `accepted` lists the accepted assertions in commit order; `issued` all challenges ever issued. */
  datatype State = State(
    keys: map<KeyId, Key>,
    requests: map<RequestId, Phase>,
    accepted: seq<Entry>,
    challenges: map<Challenge, int>,
    issued: set<Challenge>,
    enrolling: map<nat, Enrolment>)

  datatype Event =
    | ReadKey(request: RequestId, key: KeyId)
    | VerifyAssertion(request: RequestId, counter: Option<nat>)
    | Advance(request: RequestId)
    | Classify(request: RequestId)
    | IssueChallenge(challenge: Challenge, expiresAt: int)
    | BurnChallenge(attempt: nat, key: KeyId, challenge: Challenge, now: int)
    | InsertKey(attempt: nat, genuine: bool)
    | Revoke(key: KeyId)

  predicate Usable(s: State, k: KeyId) {
    k in s.keys && s.keys[k].active
  }

  predicate Enabled(s: State, e: Event) {
    match e
    case ReadKey(r, _) => r !in s.requests
    case VerifyAssertion(r, _) => r in s.requests && s.requests[r].KeyRead?
    case Advance(r) => r in s.requests && s.requests[r].Verified?
    case Classify(r) => r in s.requests && s.requests[r].NotAdvanced?
    case IssueChallenge(c, _) => c !in s.issued
    case BurnChallenge(a, _, c, now) => a !in s.enrolling && c in s.challenges && s.challenges[c] > now
    case InsertKey(a, _) => a in s.enrolling
    case Revoke(k) => k in s.keys
  }

  /** UPDATE ... SET counter = $2 WHERE key_id = $1 AND status = 'active' AND counter < $2 hits a row. */
  predicate Advances(keys: map<KeyId, Key>, k: KeyId, counter: nat) {
    k in keys && keys[k].active && keys[k].counter < counter
  }

  /** INSERT with counter 0 ... ON CONFLICT (key_id) DO NOTHING. */
  function Enrolled(keys: map<KeyId, Key>, k: KeyId): map<KeyId, Key> {
    if k in keys then keys else keys[k := Key(0, true)]
  }

  function Step(s: State, e: Event): State {
    if !Enabled(s, e) then s else
    match e
    case ReadKey(r, k) => s.(requests := s.requests[r := if Usable(s, k) then KeyRead(k) else Done(k, InvalidKey)])
    case VerifyAssertion(r, counter) =>
      var k := s.requests[r].key;
      s.(requests := s.requests[r := if counter.Some? then Verified(k, counter.value) else Done(k, BadSignature)])
    case Advance(r) =>
      var k, c := s.requests[r].key, s.requests[r].counter;
      if Advances(s.keys, k, c) then
        s.(keys := s.keys[k := s.keys[k].(counter := c)],
           requests := s.requests[r := Done(k, Accepted)],
           accepted := s.accepted + [Entry(r, k, c)])
      else s.(requests := s.requests[r := NotAdvanced(k, c)])
    case Classify(r) =>
      var k := s.requests[r].key;
      s.(requests := s.requests[r := Done(k, if Usable(s, k) then Stale else InvalidKey)])
    case IssueChallenge(c, expiresAt) => s.(challenges := s.challenges[c := expiresAt], issued := s.issued + {c})
    case BurnChallenge(a, k, c, _) =>
      s.(challenges := s.challenges - {c}, enrolling := s.enrolling[a := Enrolment(k, c)])
    case InsertKey(a, genuine) =>
      s.(keys := if genuine then Enrolled(s.keys, s.enrolling[a].key) else s.keys, enrolling := s.enrolling - {a})
    case Revoke(k) => s.(keys := s.keys[k := s.keys[k].(active := false)])
  }

  function Run(s: State, events: seq<Event>): State
    decreases |events|
  {
    if events == [] then s else Run(Step(s, events[0]), events[1..])
  }

  const INITIAL := State(map[], map[], [], map[], {}, map[])

  // ---------------------------------------------------------------- accepted counters increase

  /** Per key strictly increasing in commit order, never above the stored counter. */
  ghost predicate CountersIncrease(s: State) {
    && (forall i :: 0 <= i < |s.accepted| ==>
          s.accepted[i].key in s.keys && s.accepted[i].counter <= s.keys[s.accepted[i].key].counter)
    && (forall i, j :: 0 <= i < j < |s.accepted| && s.accepted[i].key == s.accepted[j].key ==>
          s.accepted[i].counter < s.accepted[j].counter)
  }

  /** One entry per request, and the request is over. */
  ghost predicate RequestsOnce(s: State) {
    && (forall i :: 0 <= i < |s.accepted| ==>
          s.accepted[i].request in s.requests && s.requests[s.accepted[i].request] == Done(s.accepted[i].key, Accepted))
    && (forall i, j :: 0 <= i < j < |s.accepted| ==> s.accepted[i].request != s.accepted[j].request)
  }

  ghost predicate Increasing(s: State) {
    CountersIncrease(s) && RequestsOnce(s)
  }

  /** A request whose update hit no row had a reason that lasts. */
  ghost predicate Explained(s: State) {
    forall r :: r in s.requests && s.requests[r].NotAdvanced? ==>
      var k := s.requests[r].key; k in s.keys && (!s.keys[k].active || s.requests[r].counter <= s.keys[k].counter)
  }

  /** A request past its first read has seen its key, and keys are never deleted. */
  ghost predicate KeysKnown(s: State) {
    forall r :: r in s.requests && !s.requests[r].Done? ==> s.requests[r].key in s.keys
  }

  lemma StepKeepsCounters(s: State, e: Event)
    requires CountersIncrease(s)
    ensures CountersIncrease(Step(s, e))
  {
  }

  lemma StepKeepsRequests(s: State, e: Event)
    requires RequestsOnce(s)
    ensures RequestsOnce(Step(s, e))
  {
  }

  lemma StepKeepsIncreasing(s: State, e: Event)
    requires Increasing(s)
    ensures Increasing(Step(s, e))
  {
    StepKeepsCounters(s, e);
    StepKeepsRequests(s, e);
  }

  lemma StepKeepsExplained(s: State, e: Event)
    requires Explained(s) && KeysKnown(s)
    ensures Explained(Step(s, e)) && KeysKnown(Step(s, e))
  {
  }

  /** Keys stay, counters never fall, and a revoked key stays revoked, re-enrolled or not. */
  ghost predicate KeysAge(s: State, s': State) {
    forall k :: k in s.keys ==>
      && k in s'.keys && s.keys[k].counter <= s'.keys[k].counter
      && (!s.keys[k].active ==> s'.keys[k] == s.keys[k])
  }

  lemma StepAges(s: State, e: Event)
    ensures KeysAge(s, Step(s, e))
  {
  }

  /** Main result: enrolment, re-enrolment, revocation and racing requests never lower a counter. */
  lemma {:induction false} CounterNeverFalls(s: State, events: seq<Event>)
    ensures KeysAge(s, Run(s, events))
    decreases |events|
  {
    if events != [] {
      StepAges(s, events[0]);
      CounterNeverFalls(Step(s, events[0]), events[1..]);
    }
  }

  lemma {:induction false} RunKeepsIncreasing(s: State, events: seq<Event>)
    requires Increasing(s) && Explained(s) && KeysKnown(s)
    ensures Increasing(Run(s, events)) && Explained(Run(s, events)) && KeysKnown(Run(s, events))
    decreases |events|
  {
    if events != [] {
      StepKeepsIncreasing(s, events[0]);
      StepKeepsExplained(s, events[0]);
      RunKeepsIncreasing(Step(s, events[0]), events[1..]);
    }
  }

  /**
    Main result: in every interleaving the accepted counters of a key strictly increase in commit
    order, so no assertion is accepted twice, by the same request or another.
   */
  lemma NoAssertionTwice(events: seq<Event>, i: nat, j: nat)
    requires i < j < |Run(INITIAL, events).accepted|
    ensures var a := Run(INITIAL, events).accepted;
            a[i].request != a[j].request && (a[i].key == a[j].key ==> a[i].counter < a[j].counter)
  {
    RunKeepsIncreasing(INITIAL, events);
  }

  /** Main result: "stale" is only ever answered to a counter that is not above the stored one. */
  lemma StaleIsTruthful(events: seq<Event>, r: RequestId)
    requires var s := Run(INITIAL, events); r in s.requests && s.requests[r].NotAdvanced?
    ensures var s := Run(INITIAL, events);
            var s' := Step(s, Classify(r));
            s'.requests[r] == Done(s.requests[r].key, Stale) ==>
                s.requests[r].counter <= s.keys[s.requests[r].key].counter
  {
    RunKeepsIncreasing(INITIAL, events);
  }

  // ---------------------------------------------------------------- challenges burn

  predicate Burns(s: State, e: Event, c: Challenge) {
    e.BurnChallenge? && e.challenge == c && Enabled(s, e)
  }

  function Burnings(s: State, events: seq<Event>, c: Challenge): nat
    decreases |events|
  {
    if events == [] then 0
    else (if Burns(s, events[0], c) then 1 else 0) + Burnings(Step(s, events[0]), events[1..], c)
  }

  lemma {:induction false} BurnedForever(s: State, events: seq<Event>, c: Challenge)
    requires c in s.issued && c !in s.challenges
    ensures Burnings(s, events, c) == 0
    decreases |events|
  {
    if events != [] {
      BurnedForever(Step(s, events[0]), events[1..], c);
    }
  }

  /** A challenge is burned at most once, genuine attestation or not. */
  lemma {:induction false} BurnedAtMostOnce(s: State, events: seq<Event>, c: Challenge)
    requires s.challenges.Keys <= s.issued
    ensures Burnings(s, events, c) <= 1
    decreases |events|
  {
    if events != [] {
      if Burns(s, events[0], c) {
        BurnedForever(Step(s, events[0]), events[1..], c);
      } else {
        BurnedAtMostOnce(Step(s, events[0]), events[1..], c);
      }
    }
  }

  /** The key an enrolment inserts on the strength of this challenge. */
  predicate Enrols(s: State, e: Event, c: Challenge) {
    e.InsertKey? && e.genuine && Enabled(s, e) && s.enrolling[e.attempt].challenge == c
  }

  function Enrolments(s: State, events: seq<Event>, c: Challenge): nat
    decreases |events|
  {
    if events == [] then 0
    else (if Enrols(s, events[0], c) then 1 else 0) + Enrolments(Step(s, events[0]), events[1..], c)
  }

  /** Burned challenges were issued, are gone, and serve one enrolment each. */
  ghost predicate HeldOnce(s: State) {
    && s.challenges.Keys <= s.issued
    && (forall a :: a in s.enrolling ==> s.enrolling[a].challenge in s.issued - s.challenges.Keys)
    && (forall a, b :: a in s.enrolling && b in s.enrolling && a != b ==>
          s.enrolling[a].challenge != s.enrolling[b].challenge)
  }

  ghost predicate Spent(s: State, c: Challenge) {
    c in s.issued && c !in s.challenges && forall a :: a in s.enrolling ==> s.enrolling[a].challenge != c
  }

  lemma StepKeepsHeldOnce(s: State, e: Event)
    requires HeldOnce(s)
    ensures HeldOnce(Step(s, e))
  {
  }

  lemma StepSpends(s: State, e: Event, c: Challenge)
    requires HeldOnce(s)
    ensures Enrols(s, e, c) ==> !Spent(s, c) && Spent(Step(s, e), c)
    ensures Spent(s, c) ==> Spent(Step(s, e), c)
  {
  }

  /** Main result: over every run, racing enrolments included, a challenge enrols at most one key. */
  lemma {:induction false} EnrolsAtMostOnce(s: State, events: seq<Event>, c: Challenge)
    requires HeldOnce(s)
    ensures Enrolments(s, events, c) <= if Spent(s, c) then 0 else 1
    decreases |events|
  {
    if events != [] {
      StepKeepsHeldOnce(s, events[0]);
      StepSpends(s, events[0], c);
      EnrolsAtMostOnce(Step(s, events[0]), events[1..], c);
    }
  }

  // ---------------------------------------------------------------- what each step does

  /** Both reads of a request ask for a known and active key. */
  lemma ReadOutcome(s: State, r: RequestId, k: KeyId)
    ensures r !in s.requests ==>
              var phase := if k in s.keys && s.keys[k].active then KeyRead(k) else Done(k, InvalidKey);
              Step(s, ReadKey(r, k)) == s.(requests := s.requests[r := phase])
    ensures r in s.requests ==> Step(s, ReadKey(r, k)) == s
    ensures r in s.requests && s.requests[r].NotAdvanced? ==>
              var key := s.requests[r].key;
              var outcome := if key in s.keys && s.keys[key].active then Stale else InvalidKey;
              Step(s, Classify(r)) == s.(requests := s.requests[r := Done(key, outcome)])
    ensures !(r in s.requests && s.requests[r].NotAdvanced?) ==> Step(s, Classify(r)) == s
  {
  }

  /** Verifying changes nothing but the request; an assertion that does not verify ends it. */
  lemma VerifyOutcome(s: State, r: RequestId, counter: Option<nat>)
    ensures r in s.requests && s.requests[r].KeyRead? ==>
              var key := s.requests[r].key;
              var next := if counter.Some? then Verified(key, counter.value) else Done(key, BadSignature);
              Step(s, VerifyAssertion(r, counter)) == s.(requests := s.requests[r := next])
    ensures !(r in s.requests && s.requests[r].KeyRead?) ==> Step(s, VerifyAssertion(r, counter)) == s
  {
  }

  /** The compare-and-update stores and accepts exactly a greater counter of an active key. */
  lemma AdvanceOutcome(s: State, r: RequestId)
    requires r in s.requests && s.requests[r].Verified?
    ensures var key, counter, s' := s.requests[r].key, s.requests[r].counter, Step(s, Advance(r));
            if key in s.keys && s.keys[key].active && s.keys[key].counter < counter then
              && s'.keys == s.keys[key := Key(counter, true)]
              && s'.requests == s.requests[r := Done(key, Accepted)]
              && s'.accepted == s.accepted + [Entry(r, key, counter)]
            else
              && s'.keys == s.keys && s'.accepted == s.accepted
              && s'.requests == s.requests[r := NotAdvanced(key, counter)]
    ensures Step(s, Advance(r)).challenges == s.challenges && Step(s, Advance(r)).enrolling == s.enrolling
  {
  }

  /** A challenge can be presented from its issue until its time has come, and once. */
  lemma ChallengeOutcome(s: State, attempt: nat, k: KeyId, c: Challenge, expiresAt: int, now: int)
    ensures c !in s.issued ==>
              Step(s, IssueChallenge(c, expiresAt))
              == s.(challenges := s.challenges[c := expiresAt], issued := s.issued + {c})
    ensures c in s.issued ==> Step(s, IssueChallenge(c, expiresAt)) == s
    ensures attempt !in s.enrolling && c in s.challenges && now < s.challenges[c] ==>
              Step(s, BurnChallenge(attempt, k, c, now))
              == s.(challenges := s.challenges - {c}, enrolling := s.enrolling[attempt := Enrolment(k, c)])
    ensures !(attempt !in s.enrolling && c in s.challenges && now < s.challenges[c]) ==>
              Step(s, BurnChallenge(attempt, k, c, now)) == s
  {
  }

  /** Only a genuine enrolment of an unknown key adds one, active and with counter zero. */
  lemma InsertOutcome(s: State, attempt: nat, genuine: bool, k: KeyId)
    requires attempt in s.enrolling
    ensures var s' := Step(s, InsertKey(attempt, genuine));
            && s' == s.(keys := s'.keys, enrolling := s.enrolling - {attempt})
            && (k in s.keys ==> k in s'.keys && s'.keys[k] == s.keys[k])
            && (k !in s.keys && k in s'.keys ==> genuine && k == s.enrolling[attempt].key && s'.keys[k] == Key(0, true))
            && (genuine ==> s.enrolling[attempt].key in s'.keys)
  {
  }

  lemma RevokeOutcome(s: State, k: KeyId)
    requires k in s.keys
    ensures Step(s, Revoke(k)) == s.(keys := s.keys[k := Key(s.keys[k].counter, false)])
  {
  }

  /** A new key's first assertion is accepted if its counter is positive, and only then. */
  lemma NewKeyWorks(s: State, attempt: nat, r: RequestId, counter: nat)
    requires attempt in s.enrolling && s.enrolling[attempt].key !in s.keys && r !in s.requests
    ensures var k := s.enrolling[attempt].key;
            var s' := Run(Step(s, InsertKey(attempt, true)), RequestEvents(r, k, Some(counter)));
            && r in s'.requests
            && s'.requests[r] == Done(k, if counter > 0 then Accepted else Stale)
            && k in s'.keys && s'.keys[k] == Key(counter, true)
  {
    var k := s.enrolling[attempt].key;
    InsertOutcome(s, attempt, true, k);
    var s0 := Step(s, InsertKey(attempt, true));
    RunRequest(s0, r, k, Some(counter));
    ReadOutcome(s0, r, k);
    var s1 := Step(s0, ReadKey(r, k));
    VerifyOutcome(s1, r, Some(counter));
    AdvanceOutcome(Step(s1, VerifyAssertion(r, Some(counter))), r);
  }

  // ---------------------------------------------------------------- the middleware

  /** The steps of one request; those its outcome leaves nothing to do for are not enabled. */
  function RequestEvents(r: RequestId, k: KeyId, assertion: Option<nat>): seq<Event> {
    [ReadKey(r, k), VerifyAssertion(r, assertion), Advance(r), Classify(r)]
  }

  lemma RunTwo(s: State, d: Event, e: Event)
    ensures Run(s, [d, e]) == Step(Step(s, d), e)
  {
    assert [d, e][1..] == [e] && [e][1..] == [];
    assert Run(Step(s, d), [e]) == Step(Step(s, d), e);
  }

  lemma RunRequest(s: State, r: RequestId, k: KeyId, assertion: Option<nat>)
    ensures Run(s, RequestEvents(r, k, assertion))
            == Step(Step(Step(Step(s, ReadKey(r, k)), VerifyAssertion(r, assertion)), Advance(r)), Classify(r))
  {
    var read, verify, advance, classify := ReadKey(r, k), VerifyAssertion(r, assertion), Advance(r), Classify(r);
    assert [read, verify, advance, classify][1..] == [verify, advance, classify];
    assert [verify, advance, classify][1..] == [advance, classify];
    var s1 := Step(s, read);
    var s2 := Step(s1, verify);
    RunTwo(s2, advance, classify);
    assert Run(s1, [verify, advance, classify]) == Run(s2, [advance, classify]);
  }

  /** The tables, with the program counters of the requests and the history as ghosts. */
  class KeyStore {
    var keys: map<KeyId, Key>
    var challenges: map<Challenge, int>
    ghost var requests: map<RequestId, Phase>
    ghost var accepted: seq<Entry>
    ghost var issued: set<Challenge>
    ghost var enrolling: map<nat, Enrolment>

    ghost function View(): State
      reads this
    {
      State(keys, requests, accepted, challenges, issued, enrolling)
    }

    constructor ()
      ensures View() == INITIAL
    {
      keys, challenges := map[], map[];
      requests, accepted, issued, enrolling := map[], [], {}, map[];
    }

    /** The first read of a request's key. */
    method FindKey(ghost r: RequestId, k: KeyId) returns (usable: bool)
      requires r !in requests
      modifies this`requests
      ensures View() == Step(old(View()), ReadKey(r, k))
      ensures usable <==> requests[r] == KeyRead(k)
      ensures !usable ==> requests[r] == Done(k, InvalidKey)
    {
      usable := k in keys && keys[k].active;
      requests := requests[r := if usable then KeyRead(k) else Done(k, InvalidKey)];
    }

    /** Verifying writes nothing. */
    ghost method RecordVerification(r: RequestId, k: KeyId, assertion: Option<nat>)
      requires r in requests && requests[r] == KeyRead(k)
      modifies this`requests
      ensures View() == Step(old(View()), VerifyAssertion(r, assertion))
      ensures r in requests
      ensures requests[r] == if assertion.Some? then Verified(k, assertion.value) else Done(k, BadSignature)
    {
      requests := requests[r := if assertion.Some? then Verified(k, assertion.value) else Done(k, BadSignature)];
    }

    /** The compare-and-update: one row, or none. */
    method AdvanceCounter(ghost r: RequestId, k: KeyId, counter: nat) returns (rows: nat)
      requires r in requests && requests[r] == Verified(k, counter)
      modifies this`keys, this`requests, this`accepted
      ensures View() == Step(old(View()), Advance(r))
      ensures rows == if Advances(old(keys), k, counter) then 1 else 0
      ensures requests[r] == if rows == 1 then Done(k, Accepted) else NotAdvanced(k, counter)
    {
      rows := 0;
      if k in keys && keys[k].active && keys[k].counter < counter {
        keys := keys[k := keys[k].(counter := counter)];
        accepted := accepted + [Entry(r, k, counter)];
        rows := 1;
      }
      requests := requests[r := if rows == 1 then Done(k, Accepted) else NotAdvanced(k, counter)];
    }

    /** The second read, to tell a revoked key from a counter that is not greater. */
    method ClassifyMiss(ghost r: RequestId, k: KeyId) returns (outcome: Outcome)
      requires r in requests && requests[r].NotAdvanced? && requests[r].key == k
      modifies this`requests
      ensures View() == Step(old(View()), Classify(r)) && requests[r] == Done(k, outcome)
    {
      outcome := if k in keys && keys[k].active then Stale else InvalidKey;
      requests := requests[r := Done(k, outcome)];
    }

    /** One undisturbed request: read, verify, advance, and classify a miss. */
    method Authorize(ghost r: RequestId, k: KeyId, assertion: Option<nat>) returns (outcome: Outcome)
      requires r !in requests
      modifies this
      ensures View() == Run(old(View()), RequestEvents(r, k, assertion))
      ensures r in requests && requests[r] == Done(k, outcome)
      ensures outcome == Accepted <==> assertion.Some? && Advances(old(keys), k, assertion.value)
      ensures outcome == Stale <==> && k in old(keys) && old(keys)[k].active
                                    && assertion.Some? && assertion.value <= old(keys)[k].counter
      ensures outcome == BadSignature <==> k in old(keys) && old(keys)[k].active && assertion.None?
    {
      RunRequest(View(), r, k, assertion);
      var usable := FindKey(r, k);
      if !usable {
        return InvalidKey;
      }
      RecordVerification(r, k, assertion);
      if assertion.None? {
        return BadSignature;
      }
      var rows := AdvanceCounter(r, k, assertion.value);
      if rows == 0 {
        outcome := ClassifyMiss(r, k);
        return;
      }
      return Accepted;
    }

    /** DELETE ... WHERE challenge = $1 AND expires_at > now() RETURNING. */
    method ConsumeChallenge(ghost attempt: nat, k: KeyId, c: Challenge, now: int) returns (found: bool)
      requires attempt !in enrolling
      modifies this`challenges, this`enrolling
      ensures View() == Step(old(View()), BurnChallenge(attempt, k, c, now))
      ensures found <==> attempt in enrolling
      ensures found ==> enrolling[attempt] == Enrolment(k, c)
      ensures found <==> c in old(challenges) && old(challenges)[c] > now
    {
      found := c in challenges && challenges[c] > now;
      if found {
        challenges := challenges - {c};
        enrolling := enrolling[attempt := Enrolment(k, c)];
      }
    }

    /** Enrolment: the challenge is gone whatever the verifier says; an existing key is left alone. */
    method EnrollKey(ghost attempt: nat, k: KeyId, c: Challenge, genuine: bool, now: int) returns (ok: bool)
      requires attempt !in enrolling
      modifies this
      ensures View() == Run(old(View()), [BurnChallenge(attempt, k, c, now), InsertKey(attempt, genuine)])
      ensures ok <==> c in old(challenges) && old(challenges)[c] > now && genuine
    {
      RunTwo(View(), BurnChallenge(attempt, k, c, now), InsertKey(attempt, genuine));
      var found := ConsumeChallenge(attempt, k, c, now);
      if !found {
        return false;
      }
      enrolling := enrolling - {attempt};
      if !genuine {
        return false;
      }
      if k !in keys {
        keys := keys[k := Key(0, true)];
      }
      return true;
    }
  }
}
