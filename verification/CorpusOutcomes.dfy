/**
  What each corpus transaction does, stated on the rows before and after it and without the
  functions the transactions are composed of (db/corpus.go, db/admin.go).
 */
module CorpusOutcomes {
  import opened Common
  import opened Corpus
  import Limits

  // ---------------------------------------------------------------- releases

  /** `r` is the one active release of its key; the others of that key are off, everything else is as before. */
  ghost predicate Switched(m: map<ReleaseId, Release>, m': map<ReleaseId, Release>, r: ReleaseId,
                           episode: Episode, language: Language) {
    && m'.Keys == m.Keys + {r}
    && m'[r].active && m'[r].episode == episode && m'[r].language == language
    && forall q :: q in m && q != r ==>
         && m'[q].episode == m[q].episode && m'[q].language == m[q].language
         && m'[q].slots == m[q].slots && m'[q].author == m[q].author
         && m'[q].active == (m[q].active && !(m[q].episode == episode && m[q].language == language))
  }

  lemma SwitchMeans(m: map<ReleaseId, Release>, r: ReleaseId, release: Release)
    requires release.active
    ensures Switched(m, Deactivated(m, release.episode, release.language)[r := release], r,
                     release.episode, release.language)
  {
  }

  /** Rolling back makes the named release its key's active one, with the slots and the author it had. */
  lemma RollbackOutcome(s: State, r: ReleaseId)
    ensures r !in s.releases ==> Step(s, Rollback(r)) == s
    ensures r in s.releases ==>
              var s' := Step(s, Rollback(r));
              && Switched(s.releases, s'.releases, r, s.releases[r].episode, s.releases[r].language)
              && s'.releases[r].slots == s.releases[r].slots && s'.releases[r].author == s.releases[r].author
              && s' == s.(releases := s'.releases)
  {
    if r in s.releases {
      SwitchMeans(s.releases, r, s.releases[r].(active := true));
    }
  }

  /** The artifact exists, is of the slot's kind, and its candidate is of the episode. */
  predicate Fits(s: State, episode: Episode, kind: Kind, a: ArtifactId) {
    && a in s.artifacts && s.artifacts[a].kind == kind
    && s.artifacts[a].candidate in s.candidates && s.candidates[s.artifacts[a].candidate].episode == episode
  }

  /** A promotion makes a release of exactly these slots its key's active one, if all of them fit; otherwise nothing. */
  lemma PromoteOutcome(s: State, r: ReleaseId, episode: Episode, language: Language, slots: map<Kind, ArtifactId>,
                       actor: string)
    requires r !in s.releases
    ensures (forall k :: k in slots ==> Fits(s, episode, k, slots[k])) ==>
              var s' := Step(s, Promote(r, episode, language, slots, actor));
              && Switched(s.releases, s'.releases, r, episode, language)
              && s'.releases[r].slots == slots && s'.releases[r].author == AdminActor(actor)
              && s' == s.(releases := s'.releases)
    ensures !(forall k :: k in slots ==> Fits(s, episode, k, slots[k])) ==>
              Step(s, Promote(r, episode, language, slots, actor)) == s
  {
    assert forall k :: k in slots ==> (Fits(s, episode, k, slots[k]) <==> SlotOk(s, episode, k, slots[k]));
    SwitchMeans(s.releases, r, Release(episode, language, slots, true, AdminActor(actor)));
  }

  /** Main result: whatever release an admin rolls back to is active afterwards, and stays so until replaced. */
  lemma RollbackStands(s: State, r: ReleaseId, events: seq<Event>)
    requires r in s.releases && s.releases[r].author.AdminActor?
    requires forall i :: 0 <= i < |events| ==> !Replaces(Run(Step(s, Rollback(r)), events[..i]), events[i], r)
    ensures var m := Run(Step(s, Rollback(r)), events).releases;
            r in m && m[r].active && m[r].slots == s.releases[r].slots
  {
    RollbackOutcome(s, r);
    AdminReleaseStands(Step(s, Rollback(r)), events, r);
  }

  // ---------------------------------------------------------------- candidates and artifacts

  predicate Content(c: Candidate, episode: Episode, language: Language, source: Source, hash: Hash) {
    c.episode == episode && c.language == language && c.source == source && c.hash == hash
  }

  /** `c` has the content afterwards: it had it before, or no candidate had and `c` is the new row. */
  ghost predicate Settled(m: map<CandidateId, Candidate>, m': map<CandidateId, Candidate>, c: CandidateId,
                          id: CandidateId, row: Candidate) {
    || (m' == m && c in m && Content(m[c], row.episode, row.language, row.source, row.hash))
    || (&& m' == m[id := row] && c == id
        && forall d :: d in m ==> !Content(m[d], row.episode, row.language, row.source, row.hash))
  }

  /** The old artifacts are untouched, every upload is there for the candidate, and nothing else is new. */
  ghost predicate Uploaded(m: map<ArtifactId, Artifact>, m': map<ArtifactId, Artifact>, c: CandidateId,
                           uploads: seq<Upload>) {
    && (forall a :: a in m ==> a in m' && m'[a] == m[a])
    && (forall u :: u in uploads ==> Present(m', c, u))
    && (forall a :: a in m' && a !in m ==> exists u :: u in uploads && a == u.id && Is(m'[a], c, u))
  }

  predicate Is(a: Artifact, c: CandidateId, u: Upload) {
    a.candidate == c && a.kind == u.kind && a.hash == u.hash
  }

  ghost predicate Present(m: map<ArtifactId, Artifact>, c: CandidateId, u: Upload) {
    exists a :: a in m && Is(m[a], c, u)
  }

  lemma OneUploaded(m: map<ArtifactId, Artifact>, c: CandidateId, u: Upload)
    requires u.id !in m
    ensures Uploaded(m, if Taken(m, c, u.kind, u.hash) then m else m[u.id := Artifact(c, u.kind, u.hash)], c, [u])
  {
    var m' := if Taken(m, c, u.kind, u.hash) then m else m[u.id := Artifact(c, u.kind, u.hash)];
    assert Present(m', c, u) by {
      if Taken(m, c, u.kind, u.hash) {
        var a :| a in m && m[a] == Artifact(c, u.kind, u.hash);
        assert Is(m'[a], c, u);
      } else {
        assert u.id in m' && Is(m'[u.id], c, u);
      }
    }
    assert u in [u];
  }

  lemma UploadedTwice(m: map<ArtifactId, Artifact>, m1: map<ArtifactId, Artifact>, m2: map<ArtifactId, Artifact>,
                      c: CandidateId, u: Upload, rest: seq<Upload>)
    requires Uploaded(m, m1, c, [u]) && Uploaded(m1, m2, c, rest)
    ensures Uploaded(m, m2, c, [u] + rest)
  {
    forall v | v in [u] + rest ensures Present(m2, c, v) {
      if v !in rest {
        assert v in [u] && Present(m1, c, v);
        var a :| a in m1 && Is(m1[a], c, v);
        assert a in m2 && Is(m2[a], c, v);
      }
    }
    forall a | a in m2 && a !in m ensures exists v :: v in [u] + rest && a == v.id && Is(m2[a], c, v) {
      if a in m1 {
        var v :| v in [u] && a == v.id && Is(m1[a], c, v);
        assert v in [u] + rest && Is(m2[a], c, v);
      } else {
        var v :| v in rest && a == v.id && Is(m2[a], c, v);
        assert v in [u] + rest;
      }
    }
  }

  lemma {:induction false} AddAllUploads(m: map<ArtifactId, Artifact>, c: CandidateId, uploads: seq<Upload>)
    requires FreshUploads(m, uploads)
    ensures Uploaded(m, AddAll(m, c, uploads), c, uploads)
    decreases |uploads|
  {
    if uploads != [] {
      var u, rest := uploads[0], uploads[1..];
      var m1 := if Taken(m, c, u.kind, u.hash) then m else m[u.id := Artifact(c, u.kind, u.hash)];
      OneUploaded(m, c, u);
      AddAllUploads(m1, c, rest);
      UploadedTwice(m, m1, AddAll(m1, c, rest), c, u, rest);
      assert uploads == [u] + rest;
    }
  }

  // ---------------------------------------------------------------- contributions

  predicate Submitter(who: Attribution) {
    who.User? || who.Install? || who.Anonymous?
  }

  /** Fifty rows of this attribution in the last 24 hours. */
  predicate OverQuota(s: State, e: Event)
    requires e.Contribute?
  {
    e.who in s.received && Limits.CountSince(s.received[e.who], e.now - 86400) >= 50
  }

  /** The token of the candidate, fifteen minutes from now, unless it is consumed or somebody else's. */
  ghost predicate TokenArmed(s: State, s': State, e: Event, c: CandidateId)
    requires e.Contribute?
  {
    && c in s'.candidates && c in s'.tokens
    && (forall d :: d != c ==> (d in s'.tokens <==> d in s.tokens) && (d in s.tokens ==> s'.tokens[d] == s.tokens[d]))
    && s'.tokens[c] == (if c !in s.tokens || (!s.tokens[c].consumed && s'.candidates[c].who == e.who)
                        then Token(e.token, e.now + 900, false) else s.tokens[c])
  }

  /** Only new content adds a row to be counted. */
  ghost predicate Recorded(s: State, s': State, e: Event)
    requires e.Contribute?
  {
    s'.received == if s'.candidates == s.candidates then s.received
                   else s.received[e.who := (if e.who in s.received then s.received[e.who] else []) + [e.now]]
  }

  lemma QuotaMeans(s: State, e: Event)
    requires e.Contribute? && Submitter(e.who) && e.id !in s.candidates && FreshUploads(s.artifacts, e.uploads)
    ensures Enabled(s, e) <==> !OverQuota(s, e)
  {
  }

  /** Main result: what a contribution does to every table. */
  lemma ContributeOutcome(s: State, e: Event) returns (c: CandidateId)
    requires e.Contribute? && Submitter(e.who) && e.id !in s.candidates && FreshUploads(s.artifacts, e.uploads)
    ensures OverQuota(s, e) ==> Step(s, e) == s
    ensures !OverQuota(s, e) ==>
              var s' := Step(s, e);
              && Settled(s.candidates, s'.candidates, c, e.id,
                         Candidate(e.episode, e.language, Contribution, e.hash, e.who))
              && Uploaded(s.artifacts, s'.artifacts, c, e.uploads)
              && TokenArmed(s, s', e, c) && Recorded(s, s', e) && s'.releases == s.releases
  {
    c := Target(s, e.episode, e.language, Contribution, e.hash, e.id);
    QuotaMeans(s, e);
    if !OverQuota(s, e) {
      assert Step(s, e) == Contributed(s, e);
      AddAllUploads(s.artifacts, c, e.uploads);
      CandidateSettled(s, e.episode, e.language, Contribution, e.hash, e.id, e.who);
      ContributionRecorded(s, e);
      ContributionArms(s, e);
    }
  }

  lemma ContributionRecorded(s: State, e: Event)
    requires e.Contribute? && e.id !in s.candidates && Enabled(s, e)
    ensures Recorded(s, Contributed(s, e), e)
  {
    CandidateSettled(s, e.episode, e.language, Contribution, e.hash, e.id, e.who);
  }

  lemma ContributionArms(s: State, e: Event)
    requires e.Contribute? && e.id !in s.candidates
    ensures TokenArmed(s, Contributed(s, e), e, Target(s, e.episode, e.language, Contribution, e.hash, e.id))
  {
  }

  lemma CandidateSettled(s: State, episode: Episode, language: Language, source: Source, hash: Hash, id: CandidateId,
                         who: Attribution)
    requires id !in s.candidates
    ensures var c := Target(s, episode, language, source, hash, id);
            var row := Candidate(episode, language, source, hash, who);
            && (c in s.candidates <==> Known(s, episode, language, source, hash))
            && Settled(s.candidates, if c in s.candidates then s.candidates else s.candidates[c := row], c, id, row)
            && (c !in s.candidates ==> s.candidates[c := row] != s.candidates)
  {
    var c, row := Target(s, episode, language, source, hash, id), Candidate(episode, language, source, hash, who);
    if c !in s.candidates {
      assert c in s.candidates[c := row];
    }
  }

  /** A token works once, unexpired, for its own candidate, and only with artifacts that are not there yet. */
  predicate Usable(s: State, c: CandidateId, token: Hash, now: int) {
    c in s.tokens && s.tokens[c].hash == token && !s.tokens[c].consumed && now < s.tokens[c].expiresAt
  }

  lemma AttachOutcome(s: State, c: CandidateId, token: Hash, uploads: seq<Upload>, now: int)
    requires FreshUploads(s.artifacts, uploads)
    ensures Usable(s, c, token, now) && NoConflict(s.artifacts, c, uploads) ==>
              var s' := Step(s, Attach(c, token, uploads, now));
              && s'.tokens == s.tokens[c := Token(s.tokens[c].hash, s.tokens[c].expiresAt, true)]
              && Uploaded(s.artifacts, s'.artifacts, c, uploads)
              && s' == s.(tokens := s'.tokens, artifacts := s'.artifacts)
    ensures !(Usable(s, c, token, now) && NoConflict(s.artifacts, c, uploads)) ==>
              Step(s, Attach(c, token, uploads, now)) == s
  {
    AddAllUploads(s.artifacts, c, uploads);
  }

  /** A conflict is an upload that repeats an artifact of the candidate, or another upload. */
  lemma ConflictMeans(m: map<ArtifactId, Artifact>, c: CandidateId, uploads: seq<Upload>)
    ensures NoConflict(m, c, uploads) <==>
              && (forall i, a :: 0 <= i < |uploads| && a in m ==> !Is(m[a], c, uploads[i]))
              && (forall i, j :: 0 <= i < j < |uploads| ==>
                    !(uploads[j].kind == uploads[i].kind && uploads[j].hash == uploads[i].hash))
  {
    forall i | 0 <= i < |uploads|
      ensures Taken(m, c, uploads[i].kind, uploads[i].hash) <==> exists a :: a in m && Is(m[a], c, uploads[i])
    {
      if a :| a in m && Is(m[a], c, uploads[i]) {
        assert m[a] == Artifact(c, uploads[i].kind, uploads[i].hash);
      }
    }
  }

  // ---------------------------------------------------------------- publishers

  /** An admin's release of the key is active. */
  predicate HeldByAdmin(s: State, episode: Episode, language: Language) {
    exists r :: r in s.releases && Holds(s.releases[r], episode, language)
  }

  predicate Holds(r: Release, episode: Episode, language: Language) {
    r.active && r.author.AdminActor? && r.episode == episode && r.language == language
  }

  /** Main result: what publisher ingestion does to every table. */
  lemma PublishOutcome(s: State, e: Event) returns (c: CandidateId, a: ArtifactId)
    requires e.Publish? && e.id !in s.candidates && e.artifact !in s.artifacts && e.release !in s.releases
    ensures var s' := Step(s, e);
            && Settled(s.candidates, s'.candidates, c, e.id,
                       Candidate(e.episode, e.language, Publisher, e.hash, ByPublisher(e.url)))
            && a in s'.artifacts && s'.artifacts[a] == Artifact(c, Transcript, e.hash)
            && (s'.artifacts == s.artifacts
                || (a == e.artifact && s'.artifacts == s.artifacts[a := Artifact(c, Transcript, e.hash)]))
            && (a == e.artifact ==> forall b :: b in s.artifacts ==> s.artifacts[b] != Artifact(c, Transcript, e.hash))
            && s'.tokens == s.tokens && s'.received == s.received
            && (if e.verified && !HeldByAdmin(s, e.episode, e.language)
                then && Switched(s.releases, s'.releases, e.release, e.episode, e.language)
                     && s'.releases[e.release].slots == map[Transcript := a]
                     && s'.releases[e.release].author == SystemPublisher
                else s'.releases == s.releases)
  {
    c := Target(s, e.episode, e.language, Publisher, e.hash, e.id);
    a := TranscriptFor(s.artifacts, c, e.hash, e.artifact);
    CandidateSettled(s, e.episode, e.language, Publisher, e.hash, e.id, ByPublisher(e.url));
    AdminMeans(s, e.episode, e.language);
    SwitchMeans(s.releases, e.release, Release(e.episode, e.language, map[Transcript := a], true, SystemPublisher));
    var s' := Step(s, e);
    assert s'.artifacts == s.artifacts[a := Artifact(c, Transcript, e.hash)];
  }

  lemma AdminMeans(s: State, episode: Episode, language: Language)
    ensures AdminActive(s, episode, language) <==> HeldByAdmin(s, episode, language)
  {
    if AdminActive(s, episode, language) {
      var r :| && r in s.releases && s.releases[r].episode == episode && s.releases[r].language == language
               && s.releases[r].active && s.releases[r].author.AdminActor?;
      assert Holds(s.releases[r], episode, language);
    }
    if HeldByAdmin(s, episode, language) {
      var r :| r in s.releases && Holds(s.releases[r], episode, language);
    }
  }

  /** A derived candidate is new content of its parent's episode, an admin's, with one artifact. */
  lemma DeriveOutcome(s: State, e: Event)
    requires e.Derive? && e.id !in s.candidates && e.upload.id !in s.artifacts
    ensures var s' := Step(s, e);
            if e.parent in s.candidates
               && forall d :: d in s.candidates ==>
                    !Content(s.candidates[d], s.candidates[e.parent].episode, e.language, Derived, e.upload.hash)
            then
              && s'.candidates == s.candidates[e.id := Candidate(s.candidates[e.parent].episode, e.language, Derived,
                                                                 e.upload.hash, ByAdmin(e.actor))]
              && s'.artifacts == s.artifacts[e.upload.id := Artifact(e.id, e.upload.kind, e.upload.hash)]
              && s' == s.(candidates := s'.candidates, artifacts := s'.artifacts)
            else s' == s
  {
    if e.parent in s.candidates {
      var episode := s.candidates[e.parent].episode;
      assert Known(s, episode, e.language, Derived, e.upload.hash) <==>
             exists d :: d in s.candidates && Content(s.candidates[d], episode, e.language, Derived, e.upload.hash) by {
        if d :| d in s.candidates && Content(s.candidates[d], episode, e.language, Derived, e.upload.hash) {
          assert SameContent(s.candidates[d], episode, e.language, Derived, e.upload.hash);
        }
      }
    }
  }

  /** Anonymizing wipes one user's attribution from their candidates and touches nothing else. */
  lemma AnonymizeOutcome(s: State, uuid: string)
    ensures var s' := Step(s, Anonymize(uuid));
            && s' == s.(candidates := s'.candidates) && s'.candidates.Keys == s.candidates.Keys
            && forall c :: c in s.candidates ==>
                 && s'.candidates[c].who
                   == (if s.candidates[c].who == User(uuid) then Anonymized else s.candidates[c].who)
                 && s'.candidates[c] == s.candidates[c].(who := s'.candidates[c].who)
  {
  }
}
