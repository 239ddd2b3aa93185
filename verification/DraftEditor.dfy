/** The workflow draft editor: what each handler of the page does to the editor's own state. */
module DraftEditor {
  import opened Options

  // Documents and layouts are JSON values, compared by their serialisation.
  type Document = string
  type Layout = string

  /** A content digest, injective. */
  datatype Digest = DigestOf(document: Document)

  /** A draft as the server stores and returns it. */
  datatype Draft = Draft(id: string, revision: nat, document: Document, layout: Layout, name: string, scope: string,
                         scopeReference: string) {
    function DocumentDigest(): Digest { DigestOf(document) }
  }

  datatype Persistence =
    | Clean(revision: nat)
    | Dirty(revision: nat)
    | Saving(revision: nat)
    | Conflict(revision: nat, remote: Draft)
    | Offline(revision: nat)
    | Failed(revision: nat)

  datatype Evidence = Evidence(draftId: string, revision: nat, documentDigest: Digest)

  datatype Validation =
    | NotRun
    | Checking(evidence: Evidence)
    | Valid(evidence: Evidence, semanticDigest: string)
    | Invalid(evidence: Evidence)
    | ValidationFailed(evidence: Evidence)

  /** A report on a draft: the number of findings, and the canonical digest if there is one. */
  datatype Report = Report(draftId: string, revision: nat, documentDigest: Digest, findings: nat,
                           digest: Option<string>)

  datatype Request = Request(draftId: string, revision: nat, documentDigest: Digest, semanticDigest: string,
                             version: string)

  /** The identity a published workflow must have. */
  datatype Identity = Identity(name: string, version: string, scope: string, reference: string)

  datatype Result = Result(draftId: string, draftRevision: nat, sourceValidationDigest: string, published: Identity,
                           digest: string)

  datatype Publish =
    | Closed
    | Confirm(request: Request)
    | Publishing(request: Request)
    | Published(result: Result)
    | PublishConflict(request: Request)
    | PublishInvalid(request: Request)
    | PublishError(request: Request)

  /** Everything the handlers read and write. A response is stale when its token is no longer current. The
      document is a new object each time it is assigned, so the count of assignments tells its identity. */
  datatype State = State(draft: Draft, document: Document, layout: Layout, persistence: Persistence,
                         validation: Validation, publish: Publish, validationToken: nat, publishToken: nat,
                         generation: nat, saveToken: nat, assignments: nat)

  // ---------------------------------------------------------------- editing

  predicate Blocked(s: State) { s.persistence.Conflict? || s.persistence.Saving? || s.publish.Publishing? }

  /** A handler runs with the persistence and the dialog of the render that made it: they decide whether
      the document may change, and the revision that the change is based on. */
  function ChangeFrom(s: State, render: State, next: Document): State {
    if Blocked(render) then s
    else s.(document := next, persistence := Dirty(render.persistence.revision),
            validation := NotRun, publish := Closed,
            validationToken := s.validationToken + 1, publishToken := s.publishToken + 1,
            generation := s.generation + 1, assignments := s.assignments + 1)
  }

  /** The handlers that wait for nothing run in the render that is current. */
  function ChangeDocument(s: State, next: Document): State { ChangeFrom(s, s, next) }

  function ChangeLayout(s: State, next: Layout): State {
    if Blocked(s) then s else s.(layout := next, persistence := Dirty(s.persistence.revision))
  }

  function RenameNode(s: State, next: Document, layout: Layout): State {
    if Blocked(s) then s else ChangeDocument(s, next).(layout := layout)
  }

  /** Adding a node at a position moves the layout first, whether or not the document may change. */
  function PlaceNode(s: State, next: Document, layout: Layout): State {
    ChangeDocument(s.(layout := layout), next)
  }

  /** The handlers that wait for an answer before they change the document: pinning a sub-workflow, adding
      one or an assessment router, and making a definition of the selected node. */
  datatype Origin = Subworkflow | Addition | Definition

  /** What is looked at when the answer arrives. An addition needs the very document it started from. */
  predicate Lands(s: State, origin: Origin, render: State) {
    match origin
    case Subworkflow => s.draft.id == render.draft.id && s.generation == render.generation
    case Addition => s.assignments == render.assignments
    case Definition => true
  }

  function LateEdit(s: State, origin: Origin, render: State, next: Document, layout: Option<Layout>): State {
    if !Lands(s, origin, render) then s
    else ChangeFrom(if layout.Some? then s.(layout := layout.value) else s, render, next)
  }

  // ---------------------------------------------------------------- autosave and conflicts

  function StartSave(s: State): State {
    if !s.persistence.Dirty? then s
    else s.(saveToken := s.saveToken + 1, persistence := Saving(s.persistence.revision))
  }

  function SaveAccepted(s: State, token: nat, saved: Draft): State {
    if token != s.saveToken || saved.id != s.draft.id then s
    else s.(draft := saved, persistence := Clean(saved.revision))
  }

  /** The rejected save reloads the draft to show the other side; that can fail too. */
  function SaveRejected(s: State, token: nat, base: nat, remote: Option<Draft>): State {
    if token != s.saveToken then s
    else s.(persistence := if remote.Some? then Conflict(base, remote.value) else Failed(base))
  }

  function SaveFailed(s: State, token: nat, base: nat, offline: bool): State {
    if token != s.saveToken then s else s.(persistence := if offline then Offline(base) else Failed(base))
  }

  function WentOnline(s: State): State {
    if s.persistence.Offline? || s.persistence.Failed? then s.(persistence := Dirty(s.persistence.revision)) else s
  }

  function UseRemote(s: State): State {
    if !s.persistence.Conflict? then s
    else
      var remote := s.persistence.remote;
      s.(draft := remote, document := remote.document, layout := remote.layout, persistence := Clean(remote.revision),
         assignments := s.assignments + 1)
  }

  function KeepLocal(s: State): State {
    if s.persistence.Conflict? then s.(persistence := Dirty(s.persistence.remote.revision)) else s
  }

  // ---------------------------------------------------------------- validation

  function EvidenceOf(s: State): Evidence { Evidence(s.draft.id, s.persistence.revision, s.draft.DocumentDigest()) }

  predicate Matches(v: Validation, e: Evidence) {
    v.Valid? && v.evidence.draftId == e.draftId && v.evidence.documentDigest == e.documentDigest
  }

  function StartValidation(s: State): State {
    if !s.persistence.Clean? then s
    else s.(validationToken := s.validationToken + 1, validation := Checking(EvidenceOf(s)))
  }

  function Verdict(e: Evidence, report: Report): Validation {
    if report.findings > 0 then Invalid(e)
    else if report.digest.Some? then Valid(e, report.digest.value)
    else ValidationFailed(e)
  }

  function Validated(s: State, token: nat, e: Evidence, report: Report): State {
    if token != s.validationToken || s.draft.id != e.draftId then s
    else if Evidence(report.draftId, report.revision, report.documentDigest) != e then
      s.(validation := ValidationFailed(e))
    else s.(validation := Verdict(e, report))
  }

  function ValidationLost(s: State, token: nat, e: Evidence): State {
    if token != s.validationToken then s else s.(validation := ValidationFailed(e))
  }

  // ---------------------------------------------------------------- publishing

  function OpenPublish(s: State, version: string): State {
    if !s.persistence.Clean? || !Matches(s.validation, EvidenceOf(s)) then s
    else
      var e := EvidenceOf(s);
      s.(publish := Confirm(Request(e.draftId, e.revision, e.documentDigest, s.validation.semanticDigest, version)))
  }

  predicate ShowsRequest(p: Publish) { p.Confirm? || p.PublishConflict? || p.PublishInvalid? || p.PublishError? }

  /** Typing another version number; the field is disabled while publishing. */
  function EditVersion(s: State, version: string): State {
    if !ShowsRequest(s.publish) then s
    else
      var request := s.publish.request.(version := version);
      s.(publish := match s.publish
                    case Confirm(_) => Confirm(request)
                    case PublishConflict(_) => PublishConflict(request)
                    case PublishInvalid(_) => PublishInvalid(request)
                    case _ => PublishError(request))
  }

  function ClosePublish(s: State): State { if s.publish.Publishing? then s else s.(publish := Closed) }

  predicate MayPublish(s: State) {
    && s.persistence.Clean? && s.publish.Confirm?
    && Matches(s.validation, EvidenceOf(s))
    && s.publish.request.draftId == s.draft.id && s.publish.request.documentDigest == s.draft.DocumentDigest()
  }

  function StartPublish(s: State): State {
    if !s.persistence.Clean? || !s.publish.Confirm? then s
    else if !MayPublish(s) then s.(publish := PublishError(s.publish.request))
    else s.(publishToken := s.publishToken + 1,
            publish := Publishing(s.publish.request.(revision := s.persistence.revision)))
  }

  function ExpectedIdentity(d: Draft, version: string): Identity {
    Identity(d.name, version, if d.scope == "project" then "project" else "user", d.scopeReference)
  }

  predicate IsDigest(s: string) { |s| == 64 && forall c <- s :: '0' <= c <= '9' || 'a' <= c <= 'f' }

  predicate Answers(result: Result, request: Request, expected: Identity) {
    && result.draftId == request.draftId && result.draftRevision == request.revision
    && result.sourceValidationDigest == request.semanticDigest
    && result.published == expected && IsDigest(result.digest)
  }

  function PublishAnswered(s: State, token: nat, generation: nat, request: Request, expected: Identity,
                           result: Result): State {
    if token != s.publishToken || generation != s.generation || s.draft.id != request.draftId
       || s.draft.DocumentDigest() != request.documentDigest then s
    else if !Answers(result, request, expected) then s.(publish := PublishError(request))
    else s.(publish := Published(result))
  }

  datatype Refusal = RevisionChanged(remote: Option<Draft>) | Rejected | OtherFailure

  function PublishRefused(s: State, token: nat, generation: nat, request: Request, why: Refusal): State {
    if token != s.publishToken || generation != s.generation then s
    else match why
      case RevisionChanged(remote) =>
        s.(persistence := if remote.Some? then Conflict(request.revision, remote.value) else s.persistence,
           publish := PublishConflict(request))
      case Rejected => s.(publish := PublishInvalid(request))
      case OtherFailure => s.(publish := PublishError(request))
  }

  // ---------------------------------------------------------------- chat events

  function ChatDraft(s: State, saved: Draft): State {
    s.(draft := saved, document := saved.document, layout := saved.layout, persistence := Clean(saved.revision),
       validation := NotRun, publish := Closed,
       validationToken := s.validationToken + 1, publishToken := s.publishToken + 1,
       generation := s.generation + 1, saveToken := s.saveToken + 1, assignments := s.assignments + 1)
  }

  function ChatReport(s: State, report: Report): State {
    var e := Evidence(report.draftId, report.revision, report.documentDigest);
    if e != Evidence(s.draft.id, s.draft.revision, s.draft.DocumentDigest()) then s
    else s.(validation := Verdict(e, report))
  }

  /** A conflict that the chat met: no token is advanced. */
  function ChatConflict(s: State, remote: Draft): State {
    if s.draft.id != remote.id then s
    else s.(persistence := Conflict(s.draft.revision, remote), validation := NotRun, publish := Closed)
  }

  // ---------------------------------------------------------------- the handlers as they run

  class Editor {
    var draft: Draft
    var document: Document
    var layout: Layout
    var persistence: Persistence
    var validation: Validation
    var publish: Publish
    var validationToken: nat
    var publishToken: nat
    var generation: nat
    var saveToken: nat
    var assignments: nat

    function View(): State
      reads this
    {
      State(draft, document, layout, persistence, validation, publish, validationToken, publishToken, generation,
            saveToken, assignments)
    }

    /** Selecting a draft loads it as the server listed it. */
    constructor (selected: Draft)
      ensures View() == State(selected, selected.document, selected.layout, Clean(selected.revision),
                              NotRun, Closed, 0, 0, 0, 0, 0)
    {
      draft, document, layout, persistence := selected, selected.document, selected.layout, Clean(selected.revision);
      validation, publish := NotRun, Closed;
      validationToken, publishToken, generation, saveToken, assignments := 0, 0, 0, 0, 0;
    }

    /** The render is the one whose handler runs, which is an earlier one after a wait. */
    method SetDocument(render: State, next: Document)
      modifies this
      ensures View() == ChangeFrom(old(View()), render, next)
    {
      if render.persistence.Conflict? || render.persistence.Saving? || render.publish.Publishing? { return; }
      validationToken := validationToken + 1;
      publishToken := publishToken + 1;
      generation := generation + 1;
      assignments := assignments + 1;
      document := next;
      persistence := Dirty(render.persistence.revision);
      validation := NotRun;
      publish := Closed;
    }

    method SetLayout(next: Layout)
      modifies this
      ensures View() == ChangeLayout(old(View()), next)
    {
      if persistence.Conflict? || persistence.Saving? || publish.Publishing? { return; }
      layout := next;
      persistence := Dirty(persistence.revision);
    }

    method Rename(next: Document, moved: Layout)
      modifies this
      ensures View() == RenameNode(old(View()), next, moved)
    {
      if persistence.Conflict? || persistence.Saving? || publish.Publishing? { return; }
      SetDocument(View(), next);
      layout := moved;
    }

    method Add(next: Document, moved: Layout)
      modifies this
      ensures View() == PlaceNode(old(View()), next, moved)
    {
      layout := moved;
      SetDocument(View(), next);
    }

    /** The definition has come that a handler of an earlier render was waiting for. */
    method OnDefinition(origin: Origin, render: State, next: Document, moved: Option<Layout>)
      modifies this
      ensures View() == LateEdit(old(View()), origin, render, next, moved)
    {
      match origin {
        case Subworkflow => if draft.id != render.draft.id || generation != render.generation { return; }
        case Addition => if assignments != render.assignments { return; }
        case Definition =>
      }
      if moved.Some? { layout := moved.value; }
      SetDocument(render, next);
    }

    /** The autosave timer: the request that goes out, if any. */
    method Autosave() returns (sent: Option<(nat, nat, Document, Layout)>)
      modifies this
      ensures View() == StartSave(old(View()))
      ensures sent == if old(persistence).Dirty?
                      then Some((saveToken, old(persistence).revision, document, layout)) else None
    {
      if !persistence.Dirty? { return None; }
      var revision := persistence.revision;
      saveToken := saveToken + 1;
      persistence := Saving(revision);
      sent := Some((saveToken, revision, document, layout));
    }

    method OnSaved(token: nat, saved: Draft)
      modifies this
      ensures View() == SaveAccepted(old(View()), token, saved)
    {
      if token != saveToken || saved.id != draft.id { return; }
      draft := saved;
      persistence := Clean(saved.revision);
    }

    method OnSaveRejected(token: nat, base: nat, remote: Option<Draft>)
      modifies this
      ensures View() == SaveRejected(old(View()), token, base, remote)
    {
      if token != saveToken { return; }
      match remote
      case Some(d) => persistence := Conflict(base, d);
      case None => persistence := Failed(base);
    }

    method OnSaveFailed(token: nat, base: nat, offline: bool)
      modifies this
      ensures View() == SaveFailed(old(View()), token, base, offline)
    {
      if token != saveToken { return; }
      if offline { persistence := Offline(base); } else { persistence := Failed(base); }
    }

    method OnOnline()
      modifies this
      ensures View() == WentOnline(old(View()))
    {
      if persistence.Offline? || persistence.Failed? { persistence := Dirty(persistence.revision); }
    }

    method TakeRemote()
      modifies this
      ensures View() == UseRemote(old(View()))
    {
      if persistence.Conflict? {
        draft := persistence.remote;
        document := draft.document;
        assignments := assignments + 1;
        layout := draft.layout;
        persistence := Clean(draft.revision);
      }
    }

    method Keep()
      modifies this
      ensures View() == KeepLocal(old(View()))
    {
      if persistence.Conflict? { persistence := Dirty(persistence.remote.revision); }
    }

    method Validate() returns (sent: Option<(nat, Evidence)>)
      modifies this
      ensures View() == StartValidation(old(View()))
      ensures sent == if old(persistence).Clean? then Some((validationToken, EvidenceOf(old(View())))) else None
    {
      if !persistence.Clean? { return None; }
      var evidence := Evidence(draft.id, persistence.revision, draft.DocumentDigest());
      validationToken := validationToken + 1;
      validation := Checking(evidence);
      sent := Some((validationToken, evidence));
    }

    method OnValidated(token: nat, evidence: Evidence, report: Report)
      modifies this
      ensures View() == Validated(old(View()), token, evidence, report)
    {
      if token != validationToken || draft.id != evidence.draftId { return; }
      if report.draftId != evidence.draftId || report.revision != evidence.revision
         || report.documentDigest != evidence.documentDigest {
        validation := ValidationFailed(evidence);
        return;
      }
      if report.findings > 0 { validation := Invalid(evidence); }
      else if report.digest.Some? { validation := Valid(evidence, report.digest.value); }
      else { validation := ValidationFailed(evidence); }
    }

    method OnValidationLost(token: nat, evidence: Evidence)
      modifies this
      ensures View() == ValidationLost(old(View()), token, evidence)
    {
      if token == validationToken { validation := ValidationFailed(evidence); }
    }

    method OpenDialog(version: string)
      modifies this
      ensures View() == OpenPublish(old(View()), version)
    {
      if !persistence.Clean? { return; }
      var evidence := Evidence(draft.id, persistence.revision, draft.DocumentDigest());
      if !Matches(validation, evidence) { return; }
      publish := Confirm(Request(evidence.draftId, evidence.revision, evidence.documentDigest,
                                 validation.semanticDigest, version));
    }

    method SetVersion(version: string)
      modifies this
      ensures View() == EditVersion(old(View()), version)
    {
      match publish
      case Confirm(r) => publish := Confirm(r.(version := version));
      case PublishConflict(r) => publish := PublishConflict(r.(version := version));
      case PublishInvalid(r) => publish := PublishInvalid(r.(version := version));
      case PublishError(r) => publish := PublishError(r.(version := version));
      case _ =>
    }

    method CloseDialog()
      modifies this
      ensures View() == ClosePublish(old(View()))
    {
      if !publish.Publishing? { publish := Closed; }
    }

    method PublishDraft() returns (sent: Option<(nat, nat, Request, Identity)>)
      modifies this
      ensures View() == StartPublish(old(View()))
      ensures sent.Some? <==> MayPublish(old(View()))
      ensures sent.Some? ==> publish.Publishing?
                             && sent.value == (publishToken, generation, publish.request,
                                               ExpectedIdentity(draft, publish.request.version))
    {
      if !persistence.Clean? || !publish.Confirm? { return None; }
      var evidence := Evidence(draft.id, persistence.revision, draft.DocumentDigest());
      if !Matches(validation, evidence) || publish.request.draftId != draft.id
         || publish.request.documentDigest != draft.DocumentDigest() {
        publish := PublishError(publish.request);
        return None;
      }
      var request := publish.request.(revision := persistence.revision);
      publishToken := publishToken + 1;
      publish := Publishing(request);
      sent := Some((publishToken, generation, request, ExpectedIdentity(draft, request.version)));
    }

    method OnPublished(token: nat, sentAt: nat, request: Request, expected: Identity, result: Result)
      modifies this
      ensures View() == PublishAnswered(old(View()), token, sentAt, request, expected, result)
    {
      if token != publishToken || sentAt != generation || draft.id != request.draftId
         || draft.DocumentDigest() != request.documentDigest { return; }
      if !Answers(result, request, expected) {
        publish := PublishError(request);
        return;
      }
      publish := Published(result);
    }

    method OnPublishRefused(token: nat, sentAt: nat, request: Request, why: Refusal)
      modifies this
      ensures View() == PublishRefused(old(View()), token, sentAt, request, why)
    {
      if token != publishToken || sentAt != generation { return; }
      match why
      case RevisionChanged(remote) =>
        if remote.Some? { persistence := Conflict(request.revision, remote.value); }
        publish := PublishConflict(request);
      case Rejected => publish := PublishInvalid(request);
      case OtherFailure => publish := PublishError(request);
    }

    method OnChatDraft(saved: Draft)
      modifies this
      ensures View() == ChatDraft(old(View()), saved)
    {
      validationToken := validationToken + 1;
      publishToken := publishToken + 1;
      generation := generation + 1;
      saveToken := saveToken + 1;
      assignments := assignments + 1;
      draft, document, layout, persistence := saved, saved.document, saved.layout, Clean(saved.revision);
      validation, publish := NotRun, Closed;
    }

    method OnChatReport(report: Report)
      modifies this
      ensures View() == ChatReport(old(View()), report)
    {
      if draft.id != report.draftId || draft.revision != report.revision
         || draft.DocumentDigest() != report.documentDigest {
        return;
      }
      var evidence := Evidence(report.draftId, report.revision, report.documentDigest);
      if report.findings > 0 { validation := Invalid(evidence); }
      else if report.digest.Some? { validation := Valid(evidence, report.digest.value); }
      else { validation := ValidationFailed(evidence); }
    }

    method OnChatConflict(remote: Draft)
      modifies this
      ensures View() == ChatConflict(old(View()), remote)
    {
      if draft.id != remote.id { return; }
      persistence := Conflict(draft.revision, remote);
      validation := NotRun;
      publish := Closed;
    }
  }
}
