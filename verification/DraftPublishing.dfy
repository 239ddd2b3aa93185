/** What the draft editor shows as published, field by field, and that a draft which is saved, found valid
    and published correctly does get there. */
module DraftPublishing {
  import opened Options
  import opened DraftEditor
  import opened DraftProtocol
  import opened DraftSafety

  /** Sixty-four hexadecimal digits in small letters. */
  predicate IsSha256(s: string) { |s| == 64 && forall k | 0 <= k < 64 :: s[k] in "0123456789abcdef" }

  /** The result of publishing a server revision as a version, after a report with this digest. */
  predicate IsResultOf(result: Result, d: Draft, version: string, digest: string) {
    && result.draftId == d.id && result.draftRevision == d.revision && result.sourceValidationDigest == digest
    && result.published.name == d.name && result.published.reference == d.scopeReference
    && result.published.version == version
    && result.published.scope in {"project", "user"}
    && (result.published.scope == "project" <==> d.scope == "project")
    && IsSha256(result.digest)
  }

  lemma {:induction false} DigestScanned(s: string)
    ensures IsDigest(s) <==> IsSha256(s)
  {
    if IsDigest(s) {
      forall k | 0 <= k < 64 ensures s[k] in "0123456789abcdef" {
        assert s[k] in s;
        HexDigit(s[k]);
      }
    }
    if IsSha256(s) {
      forall c <- s ensures '0' <= c <= '9' || 'a' <= c <= 'f' {
        var k :| 0 <= k < |s| && s[k] == c;
        HexDigit(c);
      }
    }
  }

  lemma {:induction false} HexDigit(c: char)
    ensures c in "0123456789abcdef" <==> '0' <= c <= '9' || 'a' <= c <= 'f'
  {
    var s := "0123456789abcdef";
    assert s[0] == '0' && s[1] == '1' && s[2] == '2' && s[3] == '3' && s[4] == '4' && s[5] == '5' && s[6] == '6'
           && s[7] == '7' && s[8] == '8' && s[9] == '9' && s[10] == 'a' && s[11] == 'b' && s[12] == 'c'
           && s[13] == 'd' && s[14] == 'e' && s[15] == 'f';
  }

  /** What is accepted as an answer is the result of publishing the revision that the request names. */
  lemma {:induction false} AnswersScanned(w: World, c: PublishCall, result: Result)
    requires History(w.history) && PublishInPlace(w, c)
    ensures Answers(result, c.request, c.expected) <==>
            IsResultOf(result, w.history[c.request.revision], c.request.version, c.request.semanticDigest)
  {
    hide IsDigest, IsSha256;
    DigestScanned(result.digest);
  }

  // ---------------------------------------------------------------- what is sent, and what is shown

  /** A publish request goes out exactly from a clean editor with an open dialog, if the draft in the editor
      has been found valid and is the one that the dialog was opened for. */
  lemma {:induction false} PublishSent(w: World)
    requires Core(w)
    ensures w.history != []
    ensures var v, s := Step(w, PublishDraft), w.editor;
            if && s.persistence.Clean? && s.publish.Confirm? && s.validation.Valid?
               && s.validation.evidence.draftId == s.draft.id
               && s.validation.evidence.documentDigest == DigestOf(s.draft.document)
               && s.publish.request.draftId == s.draft.id
               && s.publish.request.documentDigest == DigestOf(s.draft.document)
            then
              var request := s.publish.request.(revision := s.draft.revision);
              && v.editor == s.(publish := Publishing(request), publishToken := s.publishToken + 1)
              && |v.publishes| == |w.publishes| + 1
              && var c := v.publishes[|w.publishes|];
                 c.token == s.publishToken + 1 && c.generation == s.generation && c.request == request
            else
              && v.publishes == w.publishes
              && v.editor == s.(publish := if s.persistence.Clean? && s.publish.Confirm?
                                           then PublishError(s.publish.request) else s.publish)
  {
    CoreParts(w);
    hide Core;
  }

  /** A result is shown exactly if it is the right one for a request that is still current: no edit and no
      other request since it was sent, and the draft in the editor is the one it was sent for. */
  lemma {:induction false} ResultShown(w: World, k: nat, result: Result)
    requires Core(w) && k < |w.publishes|
    ensures w.history != []
    ensures var v, s, c := Step(w, PublishDone(k, result)), w.editor, w.publishes[k];
            && c.request.revision < |w.history|
            && var d := w.history[c.request.revision];
               v.editor == if c.token != s.publishToken || c.generation != s.generation
                              || s.draft.id != d.id || s.draft.document != d.document then s
                           else if IsResultOf(result, d, c.request.version, c.request.semanticDigest)
                           then s.(publish := Published(result)) else s.(publish := PublishError(c.request))
  {
    CoreParts(w);
    hide Core, Answers, IsResultOf;
    assert PublishInPlace(w, w.publishes[k]);
    AnswersScanned(w, w.publishes[k], result);
  }

  /** In every run that shows a published result: it is the result of publishing a revision of the server,
      as the version that was asked for, and a report found that revision's document valid with the digest
      that the result repeats. */
  lemma {:induction false} PublishedIdentity(d: Draft, history: seq<Draft>, es: seq<Event>)
    requires History(history) && d.revision < |history| && history[d.revision] == d
    ensures Core(Start(d, history))
    ensures var v := Run(Start(d, history), es);
            v.editor.publish.Published? ==>
              var result := v.editor.publish.result;
              && result.draftRevision < |v.history|
              && var r := v.history[result.draftRevision];
                 && IsResultOf(result, r, result.published.version, result.sourceValidationDigest)
                 && Verified(r.id, DigestOf(r.document), result.sourceValidationDigest) in v.verified
                 && exists k | 0 <= k < |v.publishes| :: Asked(v.publishes[k], result, v.editor.generation)
  {
    StartCore(d, history);
    hide Core, Gate, Run, IsResultOf, Answers;
    var w := Start(d, history);
    PublishedAnswers(w, es);
    var v := Run(w, es);
    if v.editor.publish.Published? {
      var k :| 0 <= k < |v.publishes| && Names(v.publishes[k], v.editor) && Backed(v, v.publishes[k].request)
               && PublishInPlace(v, v.publishes[k]);
      ShownIsRight(v, k);
    }
  }

  /** The request asked for this version of this revision, with this report, since the last edit. */
  predicate Asked(c: PublishCall, result: Result, generation: nat) {
    && c.request.revision == result.draftRevision && c.request.version == result.published.version
    && c.request.semanticDigest == result.sourceValidationDigest && c.generation == generation
  }

  lemma {:induction false} ShownIsRight(v: World, k: nat)
    requires Core(v) && k < |v.publishes| && Names(v.publishes[k], v.editor) && Backed(v, v.publishes[k].request)
    ensures var result := v.editor.publish.result;
            && result.draftRevision < |v.history|
            && var r := v.history[result.draftRevision];
               && IsResultOf(result, r, result.published.version, result.sourceValidationDigest)
               && Verified(r.id, DigestOf(r.document), result.sourceValidationDigest) in v.verified
               && Asked(v.publishes[k], result, v.editor.generation)
  {
    CoreParts(v);
    hide Core;
    assert PublishInPlace(v, v.publishes[k]);
    AnswersScanned(v, v.publishes[k], v.editor.publish.result);
  }

  // ---------------------------------------------------------------- no edit in between

  /** Only an edit and another publish request retire the token of a request. */
  lemma {:induction false} TokenStep(w: World, e: Event)
    requires w.history != [] && !IsEdit(w, e) && !e.PublishDraft?
    ensures Step(w, e).editor.publishToken == w.editor.publishToken && Step(w, e).publishes == w.publishes
    ensures w.history <= Step(w, e).history
  {
    hide LocalStep, SavingStep, PublishingStep, OtherStep;
    TokenLocal(w, e);
    if !IsLocal(e) && !IsSaving(e) { TokenOther(w, e); }
  }

  lemma {:induction false} TokenLocal(w: World, e: Event)
    requires w.history != [] && !IsEdit(w, e)
    ensures IsLocal(e) ==> LocalStep(w.editor, e).publishToken == w.editor.publishToken
    ensures IsSaving(e) ==>
              var v := SavingStep(w, e);
              v.editor.publishToken == w.editor.publishToken && v.publishes == w.publishes && w.history <= v.history
  {
  }

  lemma {:induction false} TokenOther(w: World, e: Event)
    requires w.history != [] && !IsEdit(w, e) && !e.PublishDraft? && !IsLocal(e) && !IsSaving(e)
    ensures var v := if IsPublishing(e) then PublishingStep(w, e) else OtherStep(w, e);
            && v.editor.publishToken == w.editor.publishToken && v.publishes == w.publishes
            && w.history <= v.history
  {
    hide Answers, EvidenceOf, Matches, Verdict;
  }

  lemma {:induction false} TokenStays(w: World, es: seq<Event>)
    requires Core(w) && Edits(w, es) == 0 && forall e <- es :: !e.PublishDraft?
    ensures var v := Run(w, es);
            && v.editor.publishToken == w.editor.publishToken && v.publishes == w.publishes && w.history <= v.history
    decreases |es|
  {
    hide Core, Step, IsEdit;
    if es != [] {
      StepCore(w, es[0]);
      TokenStep(w, es[0]);
      TokenStays(Step(w, es[0]), es[1..]);
    }
  }

  /** After a request has gone out, with no edit and no other request since, whatever else happened: if the
      editor still has the draft that was sent, the result is shown exactly if it is the right one. */
  lemma {:induction false} RightResultShown(w: World, es: seq<Event>, result: Result)
    requires Core(w) && w.history != [] && |w.publishes| < |Step(w, PublishDraft).publishes|
    requires Core(Step(w, PublishDraft)) && Edits(Step(w, PublishDraft), es) == 0 && forall e <- es :: !e.PublishDraft?
    requires var v := Run(Step(w, PublishDraft), es);
             v.editor.draft.id == w.editor.draft.id && v.editor.draft.document == w.editor.draft.document
    ensures w.editor.publish.Confirm?
    ensures var v, asked := Run(Step(w, PublishDraft), es), w.editor.publish.request;
            var shown := Step(v, PublishDone(|w.publishes|, result)).editor.publish;
            if IsResultOf(result, w.editor.draft, asked.version, asked.semanticDigest)
            then shown == Published(result) else shown.PublishError?
  {
    PublishSent(w);
    CoreParts(w);
    hide Core, Step, IsResultOf, Edits, Run;
    var u := Step(w, PublishDraft);
    var v := Run(u, es);
    TokenStays(u, es);
    GenerationCounts(u, es);
    SameRevision(w, v);
    ResultShown(v, |w.publishes|, result);
  }

  lemma {:induction false} SameRevision(w: World, v: World)
    requires Core(w) && w.history <= v.history
    ensures w.editor.draft.revision < |v.history| && v.history[w.editor.draft.revision] == w.editor.draft
  {
  }

  // ---------------------------------------------------------------- the way to a published workflow

  /** A clean editor that shows the latest revision. */
  predicate Settled(w: World)
    requires w.history != []
  {
    && w.editor.persistence == Clean(Head(w)) && w.editor.draft == w.history[Head(w)]
    && w.editor.document == w.editor.draft.document && !w.editor.publish.Publishing?
  }

  lemma {:induction false} FourMore(w: World, a: Event, b: Event, c: Event, d: Event)
    requires Core(w)
    ensures Run(w, [a, b, c, d]) == Step(Step(Step(Step(w, a), b), c), d)
  {
    hide Core, Step;
    StepCore(w, a);
    var w1 := Step(w, a);
    StepCore(w1, b);
    var w2 := Step(w1, b);
    StepCore(w2, c);
    var w3 := Step(w2, c);
    StepCore(w3, d);
    var w4 := Step(w3, d);
    assert [a, b, c, d][1..] == [b, c, d] && [b, c, d][1..] == [c, d] && [c, d][1..] == [d] && [d][1..] == [];
    RunNothing(w4);
    assert Run(w3, [d]) == w4;
    assert Run(w2, [c, d]) == w4;
  }

  /** An edit is saved: the server has the document and the layout as its next revision, and the editor is
      clean at it. */
  lemma {:induction false} EditIsSaved(w: World, next: Document)
    requires Core(w) && w.history != [] && Settled(w)
    ensures var v := Run(w, [Edit(next), Autosave, Serve(|w.saves|), Saved(|w.saves|, |w.history|)]);
            && v.history == w.history + [w.history[Head(w)].(revision := |w.history|, document := next,
                                                             layout := w.editor.layout)]
            && Settled(v) && v.editor.document == next && v.editor.layout == w.editor.layout
            && v.editor.validation.NotRun? && v.editor.publish.Closed?
  {
    var k, n := |w.saves|, |w.history|;
    FourMore(w, Edit(next), Autosave, Serve(k), Saved(k, n));
    CoreParts(w);
    hide Core, Step;
    var w1 := Step(w, Edit(next));
    var w2 := Step(w1, Autosave);
    var w3 := Step(w2, Serve(k));
    EditSent(w, next);
    SentIsSaved(w3, k, n);
  }

  // The edit is sent from the latest revision, and the server takes it.
  lemma {:induction false} EditSent(w: World, next: Document)
    requires w.history != [] && Settled(w)
    ensures var k, v := |w.saves|, Step(Step(Step(w, Edit(next)), Autosave), Serve(|w.saves|));
            && v.history == w.history + [w.history[Head(w)].(revision := |w.history|, document := next,
                                                             layout := w.editor.layout)]
            && |v.saves| == k + 1 && v.saves[k].due && v.saves[k].outcome == Applied(|w.history|)
            && v.saves[k].token == v.editor.saveToken && v.editor.draft == w.editor.draft
            && v.editor.document == next && v.editor.layout == w.editor.layout
            && v.editor.validation.NotRun? && v.editor.publish.Closed?
  {
  }

  // The answer to the latest save, when nobody else has written since.
  lemma {:induction false} SentIsSaved(w: World, k: nat, n: nat)
    requires w.history != [] && n == Head(w) && k < |w.saves| && w.saves[k].due && w.saves[k].outcome == Applied(n)
    requires w.saves[k].token == w.editor.saveToken && w.history[n].id == w.editor.draft.id
    requires w.history[n].revision == n && w.history[n].document == w.editor.document && w.editor.publish.Closed?
    ensures var v := Step(w, Saved(k, n));
            && v.history == w.history && Settled(v)
            && v.editor == w.editor.(draft := w.history[n], persistence := Clean(n))
  {
  }

  /** A report without findings on a clean draft lets it be published. */
  lemma {:induction false} ValidDraftIsSent(w: World, digest: string, version: string)
    requires Core(w) && w.history != [] && Settled(w)
    ensures var d := w.editor.draft;
            var report := Report(d.id, d.revision, DigestOf(d.document), 0, Some(digest));
            var v := Run(w, [Validate, Reported(|w.validates|, report), Open(version), PublishDraft]);
            && v.history == w.history && v.editor.draft == d && v.editor.document == w.editor.document
            && |v.publishes| == |w.publishes| + 1
            && var c := v.publishes[|w.publishes|];
               && c.token == v.editor.publishToken && c.generation == v.editor.generation
               && c.request == Request(d.id, d.revision, DigestOf(d.document), digest, version)
  {
    var d, j := w.editor.draft, |w.validates|;
    var report := Report(d.id, d.revision, DigestOf(d.document), 0, Some(digest));
    FourMore(w, Validate, Reported(j, report), Open(version), PublishDraft);
    CoreParts(w);
    hide Core;
    var w1 := Step(w, Validate);
    var w2 := Step(w1, Reported(j, report));
    assert w2.editor.validation == Valid(Evidence(d.id, d.revision, DigestOf(d.document)), digest);
  }

  /** All the way: an edit of a clean draft is saved, found valid, published, and shown as published if the
      server answers with the result of publishing that revision. */
  lemma {:induction false} EditIsPublished(w: World, next: Document, digest: string, version: string, result: Result)
    requires Core(w) && w.history != [] && Settled(w)
    requires var d := w.history[Head(w)].(revision := |w.history|, document := next, layout := w.editor.layout);
             IsResultOf(result, d, version, digest)
    ensures var save := [Edit(next), Autosave, Serve(|w.saves|), Saved(|w.saves|, |w.history|)];
            var u := Run(w, save);
            var report := Report(u.editor.draft.id, |w.history|, DigestOf(next), 0, Some(digest));
            var send := [Validate, Reported(|u.validates|, report), Open(version), PublishDraft];
            var v := Run(w, save + send + [PublishDone(|u.publishes|, result)]);
            v.editor.publish == Published(result) && v.editor.document == next
  {
    hide Core, Step, Run, IsResultOf;
    var save := [Edit(next), Autosave, Serve(|w.saves|), Saved(|w.saves|, |w.history|)];
    EditIsSaved(w, next);
    var u := Run(w, save);
    ValidDraftIsSent(u, digest, version);
    var report := Report(u.editor.draft.id, |w.history|, DigestOf(next), 0, Some(digest));
    var send := [Validate, Reported(|u.validates|, report), Open(version), PublishDraft];
    var t := Run(u, send);
    RunConcat(w, save, send);
    RunThen(w, save + send, PublishDone(|u.publishes|, result));
    ResultShown(t, |u.publishes|, result);
  }
}
