/**
  The transcript corpus (db/corpus.go, db/admin.go): candidates and their artifacts, one-time
  attachment tokens, and releases made by admins or by a verified publisher. Each transaction is
  one event; a transaction that fails is rolled back and changes nothing.
 */
module Corpus {
  import opened Common
  import Limits

  type Episode = string
  type Language = string
  type Hash = string
  type CandidateId = string
  type ArtifactId = string
  type ReleaseId = string

  datatype Kind = Transcript | Fingerprint | Summary | Chapters
  datatype Source = Contribution | Publisher | Derived

  /** Who a candidate is attributed to; only the first three submit contributions. */
  datatype Attribution = User(uuid: string) | Install(key: string) | Anonymous(address: string)
    | ByPublisher(url: string) | ByAdmin(actor: string) | Anonymized

  datatype Candidate = Candidate(episode: Episode, language: Language, source: Source, hash: Hash, who: Attribution)
  datatype Artifact = Artifact(candidate: CandidateId, kind: Kind, hash: Hash)
  datatype Token = Token(hash: Hash, expiresAt: int, consumed: bool)
  datatype Author = AdminActor(name: string) | SystemPublisher
  datatype Release = Release(episode: Episode, language: Language, slots: map<Kind, ArtifactId>, active: bool,
                             author: Author)

  /** `received` are the contribution rows an attribution is counted by, as the times they came in. */
  datatype State = State(
    candidates: map<CandidateId, Candidate>,
    artifacts: map<ArtifactId, Artifact>,
    tokens: map<CandidateId, Token>,
    releases: map<ReleaseId, Release>,
    received: Limits.Logs<Attribution>)

  datatype Upload = Upload(id: ArtifactId, kind: Kind, hash: Hash)

  const TOKEN_LIFETIME := 900
  const CONTRIBUTIONS_PER_DAY := 50

  datatype Event =
    | Contribute(
        who: Attribution, episode: Episode, language: Language, hash: Hash,
        id: CandidateId, uploads: seq<Upload>, token: Hash, now: int)
    | Attach(candidate: CandidateId, token: Hash, uploads: seq<Upload>, now: int)
    | Publish(
        episode: Episode, language: Language, hash: Hash, url: string,
        id: CandidateId, artifact: ArtifactId, release: ReleaseId, verified: bool)
    | Derive(parent: CandidateId, language: Language, actor: string, id: CandidateId, upload: Upload)
    | Promote(
        release: ReleaseId, episode: Episode, language: Language, slots: map<Kind, ArtifactId>, actor: string)
    | Rollback(release: ReleaseId)
    | Anonymize(uuid: string)

  // ---------------------------------------------------------------- lookups

  predicate SameContent(c: Candidate, episode: Episode, language: Language, source: Source, hash: Hash) {
    c.episode == episode && c.language == language && c.source == source && c.hash == hash
  }

  predicate Known(s: State, episode: Episode, language: Language, source: Source, hash: Hash) {
    exists c :: c in s.candidates && SameContent(s.candidates[c], episode, language, source, hash)
  }

  /** The candidate with this content, or the fresh id under which it will be inserted. */
  ghost function Target(s: State, episode: Episode, language: Language, source: Source, hash: Hash,
                        id: CandidateId): (c: CandidateId)
    ensures Known(s, episode, language, source, hash) ==>
              c in s.candidates && SameContent(s.candidates[c], episode, language, source, hash)
    ensures !Known(s, episode, language, source, hash) ==> c == id
  {
    if c :| c in s.candidates && SameContent(s.candidates[c], episode, language, source, hash) then c else id
  }

  predicate Taken(m: map<ArtifactId, Artifact>, c: CandidateId, kind: Kind, hash: Hash) {
    exists a :: a in m && m[a] == Artifact(c, kind, hash)
  }

  /** INSERT ... ON CONFLICT (candidate_id, kind, content_hash) DO NOTHING, one after the other. */
  function AddAll(m: map<ArtifactId, Artifact>, c: CandidateId, uploads: seq<Upload>): map<ArtifactId, Artifact>
    decreases |uploads|
  {
    if uploads == [] then m
    else
      var u := uploads[0];
      AddAll(if Taken(m, c, u.kind, u.hash) then m else m[u.id := Artifact(c, u.kind, u.hash)], c, uploads[1..])
  }

  predicate FreshUploads(m: map<ArtifactId, Artifact>, uploads: seq<Upload>) {
    && (forall i :: 0 <= i < |uploads| ==> uploads[i].id !in m)
    && (forall i, j :: 0 <= i < j < |uploads| ==> uploads[i].id != uploads[j].id)
  }

  /** Plain INSERTs succeed: no unique key is hit. */
  predicate NoConflict(m: map<ArtifactId, Artifact>, c: CandidateId, uploads: seq<Upload>) {
    && (forall i :: 0 <= i < |uploads| ==> !Taken(m, c, uploads[i].kind, uploads[i].hash))
    && (forall i, j :: 0 <= i < j < |uploads| ==>
        (uploads[i].kind, uploads[i].hash) != (uploads[j].kind, uploads[j].hash))
  }

  // ---------------------------------------------------------------- the transactions

  function Deactivated(m: map<ReleaseId, Release>, episode: Episode, language: Language): map<ReleaseId, Release> {
    map r | r in m :: if m[r].episode == episode && m[r].language == language then m[r].(active := false) else m[r]
  }

  predicate AdminActive(s: State, episode: Episode, language: Language) {
    exists r :: r in s.releases && s.releases[r].episode == episode && s.releases[r].language == language
                && s.releases[r].active && s.releases[r].author.AdminActor?
  }

  predicate SlotOk(s: State, episode: Episode, kind: Kind, a: ArtifactId) {
    && a in s.artifacts && s.artifacts[a].kind == kind
    && s.artifacts[a].candidate in s.candidates && s.candidates[s.artifacts[a].candidate].episode == episode
  }

  /** A contribution as its quota sees it: only one with new content adds a row to be counted. */
  function QuotaCall(s: State, e: Event): Limits.Call<Attribution>
    requires e.Contribute?
  {
    Limits.Call(e.who, e.now, !Known(s, e.episode, e.language, Contribution, e.hash))
  }

  predicate Enabled(s: State, e: Event) {
    match e
    case Contribute(who, _, _, _, id, uploads, _, _) =>
      && (who.User? || who.Install? || who.Anonymous?) && id !in s.candidates && FreshUploads(s.artifacts, uploads)
      && Limits.Admits(s.received, QuotaCall(s, e), CONTRIBUTIONS_PER_DAY)
    case Attach(c, token, uploads, now) =>
      && c in s.tokens && s.tokens[c].hash == token && !s.tokens[c].consumed && s.tokens[c].expiresAt > now
      && FreshUploads(s.artifacts, uploads) && NoConflict(s.artifacts, c, uploads)
    case Publish(_, _, _, _, id, a, r, _) => id !in s.candidates && a !in s.artifacts && r !in s.releases
    case Derive(parent, language, _, id, upload) =>
      && parent in s.candidates && id !in s.candidates && upload.id !in s.artifacts
      && !Known(s, s.candidates[parent].episode, language, Derived, upload.hash)
    case Promote(r, episode, _, slots, _) =>
      r !in s.releases && forall k :: k in slots ==> SlotOk(s, episode, k, slots[k])
    case Rollback(r) => r in s.releases
    case Anonymize(_) => true
  }

  /** A contributor's retry replaces an unused token; anybody else's duplicate leaves it alone. */
  function Armed(tokens: map<CandidateId, Token>, c: CandidateId, owner: Attribution, who: Attribution, token: Hash,
                 now: int): map<CandidateId, Token> {
    if c !in tokens then tokens[c := Token(token, now + TOKEN_LIFETIME, false)]
    else if !tokens[c].consumed && owner == who then tokens[c := Token(token, now + TOKEN_LIFETIME, false)]
    else tokens
  }

  ghost function Contributed(s: State, e: Event): State
    requires e.Contribute?
  {
    var c := Target(s, e.episode, e.language, Contribution, e.hash, e.id);
    var candidates := if c in s.candidates then s.candidates
                      else s.candidates[c := Candidate(e.episode, e.language, Contribution, e.hash, e.who)];
    s.(candidates := candidates,
       artifacts := AddAll(s.artifacts, c, e.uploads),
       tokens := Armed(s.tokens, c, candidates[c].who, e.who, e.token, e.now),
       received := Limits.AfterCall(s.received, QuotaCall(s, e), CONTRIBUTIONS_PER_DAY))
  }

  /** The candidate's transcript with this content, or the id it will be inserted under. */
  ghost function TranscriptFor(m: map<ArtifactId, Artifact>, c: CandidateId, hash: Hash,
                               spare: ArtifactId): ArtifactId {
    if a :| a in m && m[a] == Artifact(c, Transcript, hash) then a else spare
  }

  ghost function Published(s: State, e: Event): State
    requires e.Publish?
  {
    var c := Target(s, e.episode, e.language, Publisher, e.hash, e.id);
    var candidates := if c in s.candidates then s.candidates
                      else s.candidates[c := Candidate(e.episode, e.language, Publisher, e.hash, ByPublisher(e.url))];
    var a := TranscriptFor(s.artifacts, c, e.hash, e.artifact);
    s.(candidates := candidates,
       artifacts := s.artifacts[a := Artifact(c, Transcript, e.hash)],
       releases := if e.verified && !AdminActive(s, e.episode, e.language)
                   then
                     var release := Release(e.episode, e.language, map[Transcript := a], true, SystemPublisher);
                     Deactivated(s.releases, e.episode, e.language)[e.release := release]
                   else s.releases)
  }

  ghost function Step(s: State, e: Event): State {
    if !Enabled(s, e) then s else
    match e
    case Contribute(_, _, _, _, _, _, _, _) => Contributed(s, e)
    case Attach(c, _, uploads, _) =>
      s.(tokens := s.tokens[c := s.tokens[c].(consumed := true)], artifacts := AddAll(s.artifacts, c, uploads))
    case Publish(_, _, _, _, _, _, _, _) => Published(s, e)
    case Derive(parent, language, actor, id, upload) =>
      var derived := Candidate(s.candidates[parent].episode, language, Derived, upload.hash, ByAdmin(actor));
      s.(candidates := s.candidates[id := derived],
         artifacts := s.artifacts[upload.id := Artifact(id, upload.kind, upload.hash)])
    case Promote(r, episode, language, slots, actor) =>
      var release := Release(episode, language, slots, true, AdminActor(actor));
      s.(releases := Deactivated(s.releases, episode, language)[r := release])
    case Rollback(r) =>
      var off := Deactivated(s.releases, s.releases[r].episode, s.releases[r].language);
      s.(releases := off[r := off[r].(active := true)])
    case Anonymize(uuid) =>
      s.(candidates := map c | c in s.candidates ::
           if s.candidates[c].who == User(uuid) then s.candidates[c].(who := Anonymized) else s.candidates[c])
  }

  ghost function Run(s: State, events: seq<Event>): State
    decreases |events|
  {
    if events == [] then s else Run(Step(s, events[0]), events[1..])
  }

  const INITIAL := State(map[], map[], map[], map[], map[])

  // ---------------------------------------------------------------- releases

  predicate SameKey(a: Release, b: Release) {
    a.episode == b.episode && a.language == b.language
  }

  ghost predicate NeverTwo(m: map<ReleaseId, Release>) {
    forall q, r :: q in m && r in m && m[q].active && m[r].active && SameKey(m[q], m[r]) ==> q == r
  }

  ghost predicate HasActive(m: map<ReleaseId, Release>, key: Release) {
    exists q :: q in m && m[q].active && SameKey(m[q], key)
  }

  /** One active release per episode and language as soon as there is any, and never two. */
  ghost predicate OneActive(m: map<ReleaseId, Release>) {
    NeverTwo(m) && forall r :: r in m ==> HasActive(m, m[r])
  }

  /** Every filled slot holds an artifact of its kind and of the release's episode. */
  ghost predicate SlotsOk(s: State) {
    forall r, k :: r in s.releases && k in s.releases[r].slots ==>
        SlotOk(s, s.releases[r].episode, k, s.releases[r].slots[k])
  }

  /** Every artifact has its candidate; contributions, and only they, have a token. */
  ghost predicate Linked(s: State) {
    && (forall a :: a in s.artifacts ==> s.artifacts[a].candidate in s.candidates)
    && (forall c :: c in s.tokens <==> c in s.candidates && s.candidates[c].source == Contribution)
  }

  /** Deactivate a key's releases, then activate one: promotion, rollback and publication alike. */
  lemma SwitchKeepsNeverTwo(m: map<ReleaseId, Release>, r: ReleaseId, release: Release)
    requires NeverTwo(m)
    ensures NeverTwo(Deactivated(m, release.episode, release.language)[r := release])
  {
  }

  lemma SwitchKeepsHasActive(m: map<ReleaseId, Release>, r: ReleaseId, release: Release, key: Release)
    requires HasActive(m, key) || SameKey(release, key)
    requires release.active && (r in m ==> SameKey(m[r], release))
    ensures HasActive(Deactivated(m, release.episode, release.language)[r := release], key)
  {
    var m' := Deactivated(m, release.episode, release.language)[r := release];
    if SameKey(release, key) {
      assert m'[r].active;
    } else {
      var q :| q in m && m[q].active && SameKey(m[q], key);
      assert m'[q] == m[q];
    }
  }

  lemma SwitchKeepsOneActive(m: map<ReleaseId, Release>, r: ReleaseId, release: Release)
    requires OneActive(m) && release.active && (r in m ==> SameKey(m[r], release))
    ensures OneActive(Deactivated(m, release.episode, release.language)[r := release])
  {
    SwitchKeepsNeverTwo(m, r, release);
    var m' := Deactivated(m, release.episode, release.language)[r := release];
    forall x | x in m' ensures HasActive(m', m'[x]) {
      if x != r {
        assert SameKey(m[x], m'[x]) && HasActive(m, m[x]);
        SwitchKeepsHasActive(m, r, release, m[x]);
      } else {
        SwitchKeepsHasActive(m, r, release, release);
      }
    }
  }

  lemma StepKeepsOneActive(s: State, e: Event)
    requires OneActive(s.releases)
    ensures OneActive(Step(s, e).releases)
  {
    if Enabled(s, e) {
      match e {
        case Promote(r, episode, language, slots, actor) =>
          SwitchKeepsOneActive(s.releases, r, Release(episode, language, slots, true, AdminActor(actor)));
        case Rollback(r) =>
          SwitchKeepsOneActive(s.releases, r, s.releases[r].(active := true));
        case Publish(_, _, _, _, _, _, r, _) =>
          if r in Step(s, e).releases {
            SwitchKeepsOneActive(s.releases, r, Step(s, e).releases[r]);
          }
        case _ =>
      }
    }
  }

  // ---------------------------------------------------------------- slots and links

  /** Adding artifacts keeps the old ones and adds only the candidate's own. */
  lemma {:induction false} AddAllGrows(m: map<ArtifactId, Artifact>, c: CandidateId, uploads: seq<Upload>)
    requires FreshUploads(m, uploads)
    ensures forall a :: a in m ==> a in AddAll(m, c, uploads) && AddAll(m, c, uploads)[a] == m[a]
    ensures forall a :: a in AddAll(m, c, uploads) && a !in m ==> AddAll(m, c, uploads)[a].candidate == c
    decreases |uploads|
  {
    if uploads != [] {
      var u := uploads[0];
      var m' := if Taken(m, c, u.kind, u.hash) then m else m[u.id := Artifact(c, u.kind, u.hash)];
      AddAllGrows(m', c, uploads[1..]);
    }
  }

  /** Rows are only ever added; an artifact keeps its kind and candidate, a candidate its episode. */
  ghost predicate Grows(s: State, s': State) {
    && (forall a :: a in s.artifacts ==> a in s'.artifacts && s'.artifacts[a] == s.artifacts[a])
    && (forall c :: c in s.candidates ==> c in s'.candidates && s'.candidates[c].episode == s.candidates[c].episode
                                          && s'.candidates[c].source == s.candidates[c].source)
  }

  lemma ContributeGrows(s: State, e: Event)
    requires e.Contribute? && Enabled(s, e)
    ensures Grows(s, Step(s, e))
  {
    AddAllGrows(s.artifacts, Target(s, e.episode, e.language, Contribution, e.hash, e.id), e.uploads);
  }

  lemma PublishGrows(s: State, e: Event)
    requires e.Publish? && Enabled(s, e)
    ensures Grows(s, Step(s, e))
  {
  }

  lemma StepGrows(s: State, e: Event)
    ensures Grows(s, Step(s, e))
  {
    if Enabled(s, e) {
      match e {
        case Contribute(_, _, _, _, _, _, _, _) => ContributeGrows(s, e);
        case Attach(c, _, uploads, _) => AddAllGrows(s.artifacts, c, uploads);
        case Publish(_, _, _, _, _, _, _, _) => PublishGrows(s, e);
        case _ =>
      }
    }
  }

  lemma ContributeKeepsLinked(s: State, e: Event)
    requires Linked(s) && e.Contribute? && Enabled(s, e)
    ensures Linked(Step(s, e))
  {
    AddAllGrows(s.artifacts, Target(s, e.episode, e.language, Contribution, e.hash, e.id), e.uploads);
  }

  lemma StepKeepsLinked(s: State, e: Event)
    requires Linked(s)
    ensures Linked(Step(s, e))
  {
    if Enabled(s, e) {
      match e {
        case Contribute(_, _, _, _, _, _, _, _) => ContributeKeepsLinked(s, e);
        case Attach(c, _, uploads, _) => AddAllGrows(s.artifacts, c, uploads);
        case Publish(_, _, _, _, _, _, _, _) => PublishKeepsLinked(s, e);
        case Derive(_, _, _, _, _) => DeriveKeepsLinked(s, e);
        case _ =>
      }
    }
  }

  lemma DeriveKeepsLinked(s: State, e: Event)
    requires Linked(s) && e.Derive? && Enabled(s, e)
    ensures Linked(Step(s, e))
  {
  }

  lemma PublishKeepsLinked(s: State, e: Event)
    requires Linked(s) && e.Publish? && Enabled(s, e)
    ensures Linked(Step(s, e))
  {
  }

  lemma SlotSurvives(s: State, s': State, episode: Episode, k: Kind, a: ArtifactId)
    requires Grows(s, s') && SlotOk(s, episode, k, a)
    ensures SlotOk(s', episode, k, a)
  {
  }

  /** A release keeps its episode and its slots; only `active` changes. */
  lemma ReleaseKeepsSlots(s: State, e: Event, r: ReleaseId)
    requires r in s.releases
    ensures r in Step(s, e).releases
    ensures Step(s, e).releases[r].episode == s.releases[r].episode
    ensures Step(s, e).releases[r].slots == s.releases[r].slots
  {
    if Enabled(s, e) {
      match e {
        case Promote(_, episode, language, _, _) => DeactivatedKeepsSlots(s.releases, episode, language, r);
        case Publish(episode, language, _, _, _, _, _, _) => DeactivatedKeepsSlots(s.releases, episode, language, r);
        case Rollback(q) => DeactivatedKeepsSlots(s.releases, s.releases[q].episode, s.releases[q].language, r);
        case _ => assert Step(s, e).releases == s.releases;
      }
    }
  }

  lemma DeactivatedKeepsSlots(m: map<ReleaseId, Release>, episode: Episode, language: Language, r: ReleaseId)
    requires r in m
    ensures r in Deactivated(m, episode, language)
    ensures Deactivated(m, episode, language)[r].episode == m[r].episode
    ensures Deactivated(m, episode, language)[r].slots == m[r].slots
  {
  }

  lemma NewReleaseFits(s: State, e: Event, r: ReleaseId, k: Kind)
    requires r !in s.releases && r in Step(s, e).releases && k in Step(s, e).releases[r].slots
    ensures SlotOk(Step(s, e), Step(s, e).releases[r].episode, k, Step(s, e).releases[r].slots[k])
  {
    if e.Promote? {
      StepGrows(s, e);
      SlotSurvives(s, Step(s, e), e.episode, k, e.slots[k]);
    }
  }

  lemma StepKeepsSlots(s: State, e: Event)
    requires SlotsOk(s)
    ensures SlotsOk(Step(s, e))
  {
    var s' := Step(s, e);
    forall r, k | r in s'.releases && k in s'.releases[r].slots
      ensures SlotOk(s', s'.releases[r].episode, k, s'.releases[r].slots[k])
    {
      if r in s.releases {
        ReleaseKeepsSlots(s, e, r);
        StepGrows(s, e);
        SlotSurvives(s, s', s.releases[r].episode, k, s.releases[r].slots[k]);
      } else {
        NewReleaseFits(s, e, r, k);
      }
    }
  }

  ghost predicate Good(s: State) {
    OneActive(s.releases) && SlotsOk(s) && Linked(s)
  }

  /** Main result: in every run each key has one active release once it has any, with fitting slots. */
  lemma {:induction false} RunKeepsGood(s: State, events: seq<Event>)
    requires Good(s)
    ensures Good(Run(s, events))
    decreases |events|
  {
    if events != [] {
      StepKeepsOneActive(s, events[0]);
      StepKeepsSlots(s, events[0]);
      StepKeepsLinked(s, events[0]);
      RunKeepsGood(Step(s, events[0]), events[1..]);
    }
  }

  /** An active release made by an admin is not touched by any publisher step. */
  lemma PublisherYieldsToAdmin(s: State, e: Event, r: ReleaseId)
    requires e.Publish? && r in s.releases && s.releases[r].active && s.releases[r].author.AdminActor?
    ensures r in Step(s, e).releases && Step(s, e).releases[r] == s.releases[r]
  {
  }

  /** A promotion, or a rollback to another release, of this release's episode and language. */
  predicate Replaces(s: State, e: Event, r: ReleaseId) {
    && Enabled(s, e) && r in s.releases
    && ((e.Promote? && e.episode == s.releases[r].episode && e.language == s.releases[r].language)
        || (e.Rollback? && e.release != r && SameKey(s.releases[e.release], s.releases[r])))
  }

  lemma StepKeepsAdminRelease(s: State, e: Event, r: ReleaseId)
    requires r in s.releases && s.releases[r].active && s.releases[r].author.AdminActor? && !Replaces(s, e, r)
    ensures r in Step(s, e).releases && Step(s, e).releases[r] == s.releases[r]
  {
  }

  lemma PrefixRun(s: State, events: seq<Event>, i: nat)
    requires i < |events|
    ensures Run(s, events[..i + 1]) == Run(Step(s, events[0]), events[1..][..i])
  {
    assert events[..i + 1][1..] == events[1..][..i];
  }

  /**
    Main result: an admin's active release stays as it is until an admin promotes or rolls back to
    another release of the same episode and language. Refused attempts, and admin actions on other
    episodes or languages, are part of the run.
   */
  lemma {:induction false} AdminReleaseStands(s: State, events: seq<Event>, r: ReleaseId)
    requires r in s.releases && s.releases[r].active && s.releases[r].author.AdminActor?
    requires forall i :: 0 <= i < |events| ==> !Replaces(Run(s, events[..i]), events[i], r)
    ensures r in Run(s, events).releases && Run(s, events).releases[r] == s.releases[r]
    decreases |events|
  {
    if events != [] {
      var s', rest := Step(s, events[0]), events[1..];
      assert events[..0] == [];
      StepKeepsAdminRelease(s, events[0], r);
      forall i | 0 <= i < |rest| ensures !Replaces(Run(s', rest[..i]), rest[i], r) {
        PrefixRun(s, events, i);
        assert !Replaces(Run(s, events[..i + 1]), events[i + 1], r);
      }
      AdminReleaseStands(s', rest, r);
    }
  }

  // ---------------------------------------------------------------- attachment tokens

  predicate Consumes(s: State, e: Event, c: CandidateId) {
    e.Attach? && e.candidate == c && Enabled(s, e)
  }

  /** How often a run consumes the candidate's token. */
  ghost function Consumptions(s: State, events: seq<Event>, c: CandidateId): nat
    decreases |events|
  {
    if events == [] then 0
    else (if Consumes(s, events[0], c) then 1 else 0) + Consumptions(Step(s, events[0]), events[1..], c)
  }

  lemma ConsumedStays(s: State, e: Event, c: CandidateId)
    requires c in s.tokens && s.tokens[c].consumed
    ensures c in Step(s, e).tokens && Step(s, e).tokens[c] == s.tokens[c] && !Consumes(s, e, c)
  {
  }

  lemma {:induction false} NeverRearmed(s: State, events: seq<Event>, c: CandidateId)
    requires c in s.tokens && s.tokens[c].consumed
    ensures c in Run(s, events).tokens && Run(s, events).tokens[c] == s.tokens[c] && Consumptions(s, events, c) == 0
    decreases |events|
  {
    if events != [] {
      ConsumedStays(s, events[0], c);
      NeverRearmed(Step(s, events[0]), events[1..], c);
    }
  }

  /** Main result: a token is consumed at most once over a whole run, whoever tries. */
  lemma {:induction false} ConsumedAtMostOnce(s: State, events: seq<Event>, c: CandidateId)
    ensures Consumptions(s, events, c) <= 1
    decreases |events|
  {
    if events != [] {
      if Consumes(s, events[0], c) {
        NeverRearmed(Step(s, events[0]), events[1..], c);
      } else {
        ConsumedAtMostOnce(Step(s, events[0]), events[1..], c);
      }
    }
  }

  /** The candidate's own contributor submits its content again, within the quota. */
  ghost predicate Retries(s: State, e: Event, c: CandidateId) {
    && Enabled(s, e) && e.Contribute? && c in s.candidates && e.who == s.candidates[c].who
    && Target(s, e.episode, e.language, Contribution, e.hash, e.id) == c
  }

  lemma StepKeepsForeignToken(s: State, e: Event, c: CandidateId)
    requires Linked(s) && c in s.tokens && !Retries(s, e, c)
    ensures c in Step(s, e).tokens && Step(s, e).tokens[c].hash == s.tokens[c].hash
  {
  }

  /**
    Main result: a token is replaced only when the candidate's own contributor submits the same
    content again. Their other contributions, and refused ones, are part of the run.
   */
  lemma {:induction false} TokenOnlyFromContributor(s: State, events: seq<Event>, c: CandidateId)
    requires Linked(s) && c in s.tokens
    requires forall i :: 0 <= i < |events| ==> !Retries(Run(s, events[..i]), events[i], c)
    ensures c in Run(s, events).tokens && Run(s, events).tokens[c].hash == s.tokens[c].hash
    decreases |events|
  {
    if events != [] {
      var s', rest := Step(s, events[0]), events[1..];
      assert events[..0] == [];
      StepKeepsForeignToken(s, events[0], c);
      StepKeepsLinked(s, events[0]);
      forall i | 0 <= i < |rest| ensures !Retries(Run(s', rest[..i]), rest[i], c) {
        PrefixRun(s, events, i);
        assert !Retries(Run(s, events[..i + 1]), events[i + 1], c);
      }
      TokenOnlyFromContributor(s', rest, c);
    }
  }

  // ---------------------------------------------------------------- the contribution quota

  /** Main result: no attribution has more than fifty contributions in any 24 hours of any run. */
  lemma {:induction false} RunKeepsQuota(s: State, events: seq<Event>)
    requires Limits.WithinQuota(s.received, CONTRIBUTIONS_PER_DAY)
    ensures Limits.WithinQuota(Run(s, events).received, CONTRIBUTIONS_PER_DAY)
    decreases |events|
  {
    if events != [] {
      if events[0].Contribute? {
        Limits.CallKeepsQuota(s.received, QuotaCall(s, events[0]), CONTRIBUTIONS_PER_DAY);
      }
      RunKeepsQuota(Step(s, events[0]), events[1..]);
    }
  }

  // ---------------------------------------------------------------- unique keys

  /** The two unique indexes: candidates by content, artifacts by candidate, kind and content. */
  ghost predicate Unique(s: State) {
    UniqueContent(s.candidates) && UniqueArtifacts(s.artifacts)
  }

  ghost predicate UniqueContent(m: map<CandidateId, Candidate>) {
    forall c, d :: c in m && d in m && SameContent(m[c], m[d].episode, m[d].language, m[d].source, m[d].hash) ==> c == d
  }

  ghost predicate UniqueArtifacts(m: map<ArtifactId, Artifact>) {
    forall a, b :: a in m && b in m && m[a] == m[b] ==> a == b
  }

  lemma {:induction false} AddAllKeepsUnique(m: map<ArtifactId, Artifact>, c: CandidateId, uploads: seq<Upload>)
    requires UniqueArtifacts(m) && FreshUploads(m, uploads)
    ensures UniqueArtifacts(AddAll(m, c, uploads))
    decreases |uploads|
  {
    if uploads != [] {
      var u := uploads[0];
      var m' := if Taken(m, c, u.kind, u.hash) then m else m[u.id := Artifact(c, u.kind, u.hash)];
      AddAllKeepsUnique(m', c, uploads[1..]);
    }
  }

  lemma StepKeepsUniqueContent(s: State, e: Event)
    requires UniqueContent(s.candidates)
    ensures UniqueContent(Step(s, e).candidates)
  {
    var m' := Step(s, e).candidates;
    forall c, d | c in m' && d in m' && SameContent(m'[c], m'[d].episode, m'[d].language, m'[d].source, m'[d].hash)
      ensures c == d
    {
    }
  }

  lemma StepKeepsUniqueArtifacts(s: State, e: Event)
    requires UniqueArtifacts(s.artifacts) && Linked(s)
    ensures UniqueArtifacts(Step(s, e).artifacts)
  {
    if Enabled(s, e) {
      match e {
        case Contribute(_, episode, language, hash, id, uploads, _, _) =>
          AddAllKeepsUnique(s.artifacts, Target(s, episode, language, Contribution, hash, id), uploads);
        case Attach(c, _, uploads, _) => AddAllKeepsUnique(s.artifacts, c, uploads);
        case _ =>
      }
    }
  }

  lemma StepKeepsUnique(s: State, e: Event)
    requires Unique(s) && Linked(s)
    ensures Unique(Step(s, e))
  {
    StepKeepsUniqueContent(s, e);
    StepKeepsUniqueArtifacts(s, e);
  }

  lemma {:induction false} RunKeepsUnique(s: State, events: seq<Event>)
    requires Unique(s) && Linked(s)
    ensures Unique(Run(s, events)) && Linked(Run(s, events))
    decreases |events|
  {
    if events != [] {
      StepKeepsUnique(s, events[0]);
      StepKeepsLinked(s, events[0]);
      RunKeepsUnique(Step(s, events[0]), events[1..]);
    }
  }

  /** From the empty corpus: every reachable state is good and within quota, and the unique indexes never fire. */
  lemma CorpusSafety(events: seq<Event>)
    ensures Good(Run(INITIAL, events)) && Unique(Run(INITIAL, events))
    ensures Limits.WithinQuota(Run(INITIAL, events).received, CONTRIBUTIONS_PER_DAY)
  {
    RunKeepsQuota(INITIAL, events);
    RunKeepsGood(INITIAL, events);
    RunKeepsUnique(INITIAL, events);
  }

  // ---------------------------------------------------------------- the store

  class CorpusStore {
    var candidates: map<CandidateId, Candidate>
    var artifacts: map<ArtifactId, Artifact>
    var tokens: map<CandidateId, Token>
    var releases: map<ReleaseId, Release>
    var received: Limits.Logs<Attribution>

    ghost function View(): State
      reads this
    {
      State(candidates, artifacts, tokens, releases, received)
    }

    constructor ()
      ensures View() == INITIAL
    {
      candidates, artifacts, tokens, releases, received := map[], map[], map[], map[], map[];
    }

    /** SELECT id FROM corpus_candidates by content. */
    method FindCandidate(episode: Episode, language: Language, source: Source, hash: Hash, id: CandidateId)
      returns (c: CandidateId)
      requires Unique(View())
      ensures c == Target(View(), episode, language, source, hash, id)
    {
      var rest := candidates.Keys;
      while exists k :: k in rest
        invariant rest <= candidates.Keys
        invariant forall k :: k in candidates.Keys - rest ==>
                    !SameContent(candidates[k], episode, language, source, hash)
        decreases rest
      {
        var k :| k in rest;
        if SameContent(candidates[k], episode, language, source, hash) {
          return k;
        }
        rest := rest - {k};
      }
      return id;
    }

    /** The artifact loop, each INSERT doing nothing on a conflict. */
    method InsertUploads(c: CandidateId, uploads: seq<Upload>)
      modifies this`artifacts
      ensures artifacts == AddAll(old(artifacts), c, uploads)
    {
      for i := 0 to |uploads|
        invariant AddAll(artifacts, c, uploads[i..]) == AddAll(old(artifacts), c, uploads)
      {
        var u := uploads[i];
        assert uploads[i..][1..] == uploads[i + 1..];
        if !Taken(artifacts, c, u.kind, u.hash) {
          artifacts := artifacts[u.id := Artifact(c, u.kind, u.hash)];
        }
      }
    }

    /** The quota, the candidate, its artifacts and its token, in one transaction. */
    method CreateContribution(who: Attribution, episode: Episode, language: Language, hash: Hash,
                              id: CandidateId, uploads: seq<Upload>, token: Hash, now: int)
      returns (ok: bool)
      requires Unique(View()) && (who.User? || who.Install? || who.Anonymous?)
      requires id !in candidates && FreshUploads(artifacts, uploads)
      modifies this
      ensures View() == Step(old(View()), Contribute(who, episode, language, hash, id, uploads, token, now))
      ensures ok <==> Limits.CountSince(Limits.Log(old(received), who), now - Limits.DAY) < CONTRIBUTIONS_PER_DAY
    {
      var count := Limits.CountSince(Limits.Log(received, who), now - Limits.DAY);
      if count >= CONTRIBUTIONS_PER_DAY {
        return false;
      }
      var c := EnsureCandidate(who, episode, language, hash, id, now);
      InsertUploads(c, uploads);
      ArmToken(c, who, token, now);
      return true;
    }

    /** The candidate with this content, or a new one with a contribution row of its own. */
    method EnsureCandidate(who: Attribution, episode: Episode, language: Language, hash: Hash, id: CandidateId,
                           now: int)
      returns (c: CandidateId)
      requires Unique(View()) && id !in candidates
      modifies this`candidates, this`received
      ensures c == Target(old(View()), episode, language, Contribution, hash, id)
      ensures candidates == if c in old(candidates) then old(candidates)
                            else old(candidates)[c := Candidate(episode, language, Contribution, hash, who)]
      ensures received == if Known(old(View()), episode, language, Contribution, hash) then old(received)
                          else old(received)[who := Limits.Log(old(received), who) + [now]]
    {
      c := FindCandidate(episode, language, Contribution, hash, id);
      if c !in candidates {
        received := received[who := Limits.Log(received, who) + [now]];
        candidates := candidates[c := Candidate(episode, language, Contribution, hash, who)];
      }
    }

    /** INSERT ... ON CONFLICT DO UPDATE unless consumed or somebody else's. */
    method ArmToken(c: CandidateId, who: Attribution, token: Hash, now: int)
      requires c in candidates
      modifies this`tokens
      ensures tokens == Armed(old(tokens), c, candidates[c].who, who, token, now)
    {
      if c !in tokens {
        tokens := tokens[c := Token(token, now + TOKEN_LIFETIME, false)];
      } else if !tokens[c].consumed && candidates[c].who == who {
        tokens := tokens[c := tokens[c].(hash := token, expiresAt := now + TOKEN_LIFETIME)];
      }
    }

    method AttachMetadata(c: CandidateId, token: Hash, uploads: seq<Upload>, now: int) returns (ok: bool)
      requires FreshUploads(artifacts, uploads)
      modifies this
      ensures View() == Step(old(View()), Attach(c, token, uploads, now))
              && ok == Enabled(old(View()), Attach(c, token, uploads, now))
    {
      ok := c in tokens && tokens[c].hash == token && !tokens[c].consumed && tokens[c].expiresAt > now
        && NoConflict(artifacts, c, uploads);
      if ok {
        tokens := tokens[c := tokens[c].(consumed := true)];
        InsertUploads(c, uploads);
      }
    }

    method DeactivateAll(episode: Episode, language: Language)
      modifies this`releases
      ensures releases == Deactivated(old(releases), episode, language)
    {
      releases := map r | r in releases ::
        if releases[r].episode == episode && releases[r].language == language && releases[r].active
          then releases[r].(active := false) else releases[r];
    }

    /** The four selections are checked one by one; the first that does not fit fails the transaction. */
    method AdminPromote(r: ReleaseId, episode: Episode, language: Language, slots: map<Kind, ArtifactId>,
                        actor: string) returns (ok: bool)
      requires r !in releases && Linked(View())
      modifies this`releases
      ensures View() == Step(old(View()), Promote(r, episode, language, slots, actor))
      ensures ok <==> Enabled(old(View()), Promote(r, episode, language, slots, actor))
    {
      var kinds := [Transcript, Fingerprint, Summary, Chapters];
      for i := 0 to 4
        invariant forall j :: 0 <= j < i && kinds[j] in slots ==> SlotOk(View(), episode, kinds[j], slots[kinds[j]])
        invariant View() == old(View())
      {
        if kinds[i] in slots {
          var a := slots[kinds[i]];
          if a !in artifacts || artifacts[a].kind != kinds[i] || candidates[artifacts[a].candidate].episode != episode {
            return false;
          }
        }
      }
      forall k | k in slots ensures SlotOk(View(), episode, k, slots[k]) {
        var j := match k case Transcript => 0 case Fingerprint => 1 case Summary => 2 case Chapters => 3;
        assert kinds[j] == k;
      }
      DeactivateAll(episode, language);
      releases := releases[r := Release(episode, language, slots, true, AdminActor(actor))];
      ok := true;
    }

    method AdminRollback(r: ReleaseId) returns (ok: bool)
      modifies this`releases
      ensures View() == Step(old(View()), Rollback(r)) && (ok <==> r in old(releases))
    {
      ok := r in releases;
      if ok {
        DeactivateAll(releases[r].episode, releases[r].language);
        releases := releases[r := releases[r].(active := true)];
      }
    }

    /** INSERT ... ON CONFLICT DO UPDATE ... RETURNING id: the existing artifact or the new one. */
    method UpsertTranscript(c: CandidateId, hash: Hash, spare: ArtifactId) returns (a: ArtifactId)
      requires UniqueArtifacts(artifacts)
      modifies this`artifacts
      ensures (exists b :: b in old(artifacts) && old(artifacts)[b] == Artifact(c, Transcript, hash)) ==>
                a in old(artifacts) && old(artifacts)[a] == Artifact(c, Transcript, hash)
      ensures !(exists b :: b in old(artifacts) && old(artifacts)[b] == Artifact(c, Transcript, hash)) ==> a == spare
      ensures artifacts == old(artifacts)[a := Artifact(c, Transcript, hash)]
    {
      if b :| b in artifacts && artifacts[b] == Artifact(c, Transcript, hash) {
        a := b;
      } else {
        a := spare;
      }
      artifacts := artifacts[a := Artifact(c, Transcript, hash)];
    }

    /** Publisher ingestion: a verified transcript is promoted unless an admin's release is active. */
    method CreatePublisherCandidate(episode: Episode, language: Language, hash: Hash, url: string, id: CandidateId,
                                    artifact: ArtifactId, release: ReleaseId, verified: bool)
      returns (promoted: bool)
      requires Unique(View()) && id !in candidates && artifact !in artifacts && release !in releases
      modifies this
      ensures View() == Step(old(View()), Publish(episode, language, hash, url, id, artifact, release, verified))
      ensures promoted <==> verified && !AdminActive(old(View()), episode, language)
    {
      var c := FindCandidate(episode, language, Publisher, hash, id);
      if c !in candidates {
        candidates := candidates[c := Candidate(episode, language, Publisher, hash, ByPublisher(url))];
      }
      var a := UpsertTranscript(c, hash, artifact);
      promoted := PromoteVerified(episode, language, a, release, verified);
    }

    /** The automatic promotion, unless an admin's release is active. */
    method PromoteVerified(episode: Episode, language: Language, a: ArtifactId, release: ReleaseId, verified: bool)
      returns (promoted: bool)
      modifies this`releases
      ensures promoted <==> verified && !AdminActive(old(View()), episode, language)
      ensures !promoted ==> releases == old(releases)
      ensures promoted ==>
                var next := Release(episode, language, map[Transcript := a], true, SystemPublisher);
                releases == Deactivated(old(releases), episode, language)[release := next]
    {
      promoted := false;
      if verified {
        var adminOverride := exists r :: && r in releases && releases[r].active && releases[r].author.AdminActor?
                                         && releases[r].episode == episode && releases[r].language == language;
        if !adminOverride {
          DeactivateAll(episode, language);
          releases := releases[release := Release(episode, language, map[Transcript := a], true, SystemPublisher)];
          promoted := true;
        }
      }
    }
  }
}
