# Dashboard models

Dafny models of the stateful parts of the DARKSTAR dashboard, with proofs of what its users rely on.
`dafny verify dfyconfig.toml` checks everything.

| files | what they model |
|---|---|
| `Regex`, `GreedyMatching`, `Strings`, `SourceText`, `MarkdownTables`, `LineForms`, `LineScanners`, `MarkdownInline`, `MarkdownBlocks`, `MarkdownDocument`, `MarkdownQuoting` | the Markdown renderer that carries source offsets |
| `InlineShapes`, `InlinePrinting`, `BlockShapes`, `TableShapes`, `TextShown` | the same read off the characters, without the definitions of the renderer: what is matched, how lines are grouped, and what is shown |
| `Outline` | the contents list of a document |
| `AnnotationOverlay`, `SelectionCapture`, `TextAnchors` | annotations drawn over rendered fragments, selections read back from them, and stored offsets |
| `DraftEditor`, `DraftProtocol`, `DraftSafety`, `DraftPublishing`, `DraftHandlers` | the workflow draft editor, its server, and whole runs of the two; what each event changes, and the way to a published workflow |
| `AgentLog` | the bounded log window and its reader |
| `ReviewPage`, `ReviewProtocol`, `ReviewGate` | the artifact review page and its interleavings; exactly what it sends |
| `SettingsEditor`, `SettingsProtocol`, `SettingsSafety`, `SettingsHandlers` | the configuration editor, its server, and whole runs of preview and apply; what each event changes |
| `RunTranscript`, `IngestSaga` | transcript polling, evidence ingestion |
| `PercentEncoding`, `Routes`, `PathTemplates`, `Naming`, `MapLines` | links, request paths, map fields, fresh names |

## How the system is modelled

- Strings are sequences of Unicode scalar values. In the Markdown modules an index is a UTF-16 offset: a surrogate
  code unit, which no scanner tells from any other ordinary character, is represented by a character above U+FFFF.
- Regular expressions are patterns for a backtracking matcher, `Regex.Search`. `Regex.MatchIsPreferred` gives its
  meaning without the search: a match is the parse that the order of preferences puts first, and there is one exactly
  when some parse exists. Section 22.2.2 of ECMA-262 prescribes that order.
- A handler that changes state is a method of a class; its contract equates the new state with a function of the old
  one, and the protocol proofs are about those functions. What the functions themselves do is stated once more without
  them, over the fields (`DraftHandlers`, `ReviewGate`, `SettingsHandlers`) and the characters (`BlockShapes`,
  `InlineShapes`, `TableShapes`, `MapLines`). `DraftProtocol.HandleAll`, `ReviewProtocol.HandleAll` and
  `SettingsProtocol.HandleAll` run the methods of the three pages over any sequence of events and prove that the result
  is the run that the theorems speak about. An event runs to completion and is followed by a re-render; a handler that
  waits goes on with the render it was started in. A timer, a response, a lost response and another writer are events
  that can come in any order.
- Digests are injective: a digest is a constructor applied to the content. Random keys never repeat, so they are
  numbered in the order in which they are drawn. JSON documents and layouts are their serialisations.
- Checks of form input that only compare lengths or read catalogues are one Boolean, `formValid`, of the event that
  submits the form.
- The servers do what the dashboard's own server does: compare-and-swap on draft revisions, with the draft read again
  for the answer; previews of settings read from two files in five separate steps; full log pages and the current size;
  transcript pages of events in position order; idempotency by key with a refusal for another body.

## What does not hold, and exactly when it does

- A clean draft editor can hold unsaved work, in three ways, while the response of a save that the server may have
  taken is still due (`DraftSafety.CleanFailsExactly`; `DraftSafety.CleanCanLie` has a run for each). A conflict that
  the chat or a refused publish shows does not retire the save's token: the user keeps the local document and types on,
  and the late response marks the editor clean. A handler that waited for a definition changes the document with the
  guard of an earlier render, which did not yet see the save. The answer itself carries another document, because the
  server reads the draft again after somebody else has written it. The client could tell the last case from the
  revision: it is right to call itself clean, whatever others wrote, exactly if the answer's revision is the one that
  follows the base of the save (`DraftSafety.RevisionDecides`).
- A foreign revision can be overwritten without the explicit choice to keep the local document, exactly when a save has
  been answered with it (`DraftSafety.ForeignNeedsKeep`, `DraftSafety.OverwriteExactly`).
- A draft of a setting can take effect twice. The idempotency key belongs to the editor component, which a search that
  hides the setting, or a refresh that fails, unmounts while the draft stays. Apart from changing, discarding or
  completing the draft, a remount is the only event that makes a second effect possible
  (`SettingsSafety.RemountExactly`, `SettingsSafety.RemountAppliesTwice`).
- After a revision conflict the page asks for another preview of the same draft, which cannot help: the server has a
  receipt for the draft's key, and an unchanged draft can take effect exactly while it has none
  (`SettingsSafety.KeyDecides`, `SettingsSafety.PreviewAgainRefused`).
- An accepted apply need not leave what the preview promised. The content is the promised one exactly if the preview's
  own before and after differ in the setting alone; the effective value is the one that was shown exactly if the change
  sets a value for a project or the other file says the same of the setting as it did at the preview
  (`SettingsProtocol.AppliedEqualsPreviewed`, `SettingsSafety.TornPreviewApplied`, `SettingsSafety.OtherFileDecides`).
- The reload after an own result acknowledges what it fetches, for the reviewer. If that session differs from the
  result, a request can bind a session that was never accepted. If only another session, received between the result
  and the reload, differed, a request binds the accepted session although a change has been seen since. One of the two
  is the case exactly when a request can break the rule at all, and the session must be one that can be decided
  (`ReviewProtocol.UnacceptedExactly`, `ReviewProtocol.UnacceptedRequest`).
- Feedback can be submitted after a change has been seen: a feedback set takes two requests, and only the first is
  gated (`ReviewProtocol.SentAfterChange`, `ReviewProtocol.SubmissionAfterChange`). It still binds the accepted session.
- A log page that ends inside the window it continues leaves a window whose end is before its bytes
  (`AgentLog.MergeRefines`, `AgentLog.InsidePageExample`). The reader never asks for one.
- Fragments are non-empty except for the empty lines of fenced code (`MarkdownDocument.EmptyFragments`,
  `MarkdownDocument.EmptyFragmentExample`). A line with a pipe above a blank line becomes a table header
  (`MarkdownBlocks.TableAboveBlankLine`).
- Annotation offsets come back one too small in a text that starts with a byte order mark
  (`TextAnchors.OffsetRoundTrip`, `TextAnchors.MarkedAnchorExample`).
- The contents list and the headings rendered outside quotes and lists are the same exactly if, among the lines that
  look like headings, the outline is outside every fence at just those at which the blocks render one
  (`Outline.OutlineIsRendered`). A line of fenced code that ends in text after a fence mark makes them differ
  (`Outline.LooseFenceExample`). `Outline.PlainBlocksAgree` is a condition on the blocks under which they agree; it
  assumes that no line holds U+2028 or U+2029, which end no line here and which "." does not match.
- In the formatted view an annotation that starts in hidden syntax has no badge (`AnnotationOverlay.FormattedView`).
- A map field reads back only maps with trimmed, non-empty, single-line values (`Naming.FormatRoundTrip`).

## Model

| member | source | states |
|---|---|---|
| Regex.MatchIsPreferred | dashboard/src/components/Markdown.tsx:8 | a match is the preferred one among all parses that start there, and exists exactly when one does |
| Regex.SearchSound | dashboard/src/components/Markdown.tsx:8 | what the backtracking search returns is a parse: every item accepts its part of the text |
| Regex.SearchComplete | dashboard/src/components/Markdown.tsx:8 | the search misses no parse, and none is preferred to its result |
| Regex.SpacesListed | dashboard/src/components/Markdown.tsx:28 | white space, character by character |
| Strings.IndexOf | dashboard/src/components/document/markdownModel.ts:25 | the first occurrence at or after a position, or that there is none |
| Strings.TrimSplits | dashboard/src/components/document/markdownModel.ts:25 | trimming takes the white space at both ends, all of it, and nothing else |
| Strings.BlankScanned | dashboard/src/components/Markdown.tsx:28 | a line is blank exactly if it has nothing but white space |
| SourceText.SourceLines | dashboard/src/components/document/markdownModel.ts:4-8 | the lines of a document, computed by one pass over its terminators |
| SourceText.LinesSplit | dashboard/src/components/document/markdownModel.ts:3-8 | each line is what stands between terminators at its claimed offset, one terminator stands between lines, and the lines are ordered slices of the text |
| SourceText.LinesSpell | dashboard/src/components/document/markdownModel.ts:3-8 | the lines, each with the line feed, carriage return or both that end it, spell the text; only a last line with text can do without, and no line holds a line end |
| MarkdownTables.TableCells | dashboard/src/components/document/markdownModel.ts:20-30 | the cells of a row, split at pipes that are neither escaped nor inside a code span |
| MarkdownTables.TrimmedIsFoundInPlace | dashboard/src/components/document/markdownModel.ts:26 | searching for trimmed text finds it at its own place, although the search starts in the white space before it |
| MarkdownTables.CellsMapped | dashboard/src/components/document/markdownModel.ts:20-30 | every cell is the slice of the source at its offset; cells are ordered, disjoint and inside the row |
| TableShapes.CellsScanned | dashboard/src/components/document/markdownModel.ts:20-30 | the cells are the trimmed stretches between the pipes that no backslash precedes and that have an even number of ticks before them, without an empty one at either end |
| TableShapes.TableShows | dashboard/src/components/Markdown.tsx:40-42 | a letter of a cell below the header is shown exactly if the header reaches its column |
| LineForms.HeadingInPlace | dashboard/src/components/Markdown.tsx:36-37 | the level is the number of marks, and the title found by the search stands where the expression matched it |
| LineScanners.HeadingScanned | dashboard/src/components/Markdown.tsx:36-37 | a line is a heading exactly when it starts with a run of one to six marks, white space, and a title on one line; the level is the length of the run |
| LineScanners.FenceScanned | dashboard/src/components/Markdown.tsx:29 | a line opens a fence exactly when three or more of one mark follow its white space; the whole run counts, and the rest, trimmed, is the info |
| LineScanners.ClosingScanned | dashboard/src/components/Markdown.tsx:32 | a line closes a fence exactly when it is at least as many of the mark with white space around them |
| LineScanners.RuleScanned | dashboard/src/components/Markdown.tsx:38 | a line is a rule exactly when it is three or more of one mark with white space anywhere, for any number of them |
| LineScanners.QuoteScanned | dashboard/src/components/Markdown.tsx:44-46 | a line is quoted exactly when ">" follows its white space, and the prefix takes one space with it |
| LineScanners.ListScanned | dashboard/src/components/Markdown.tsx:50 | the list marker, its kind, and the column where the text starts, or that there is none |
| LineScanners.StopsScanned | dashboard/src/components/Markdown.tsx:64 | what ends a paragraph looks only at the start of the next line, shape by shape |
| LineScanners.BlocksStopParagraphs | dashboard/src/components/Markdown.tsx:29-64 | a paragraph never runs over a line that would open a fence, a heading, a quote or a list |
| LineScanners.RuleStays | dashboard/src/components/Markdown.tsx:38-64 | a rule under a paragraph stays in it, exactly unless it could also start a bullet |
| GreedyMatching.GreedyMatch | dashboard/src/components/Markdown.tsx:46 | a parse whose repetitions are greedy and each take all they can is the match |
| MarkdownInline.TokenAt | dashboard/src/components/Markdown.tsx:8-20 | a match has non-empty delimiters and content inside the text, in the order of the alternatives |
| MarkdownInline.NextToken | dashboard/src/components/Markdown.tsx:9-10 | the leftmost match: no alternative matches anywhere before it |
| MarkdownInline.RenderInline | dashboard/src/components/Markdown.tsx:6-24 | the calls made by the loop over the matches, with a cursor and nested calls; what it matches and accepts is stated over the characters in InlineShapes, and what it shows in InlinePrinting |
| MarkdownInline.RenderToken | dashboard/src/components/Markdown.tsx:11-20 | the calls for one match, by its style; a link with a refused target is shown whole |
| MarkdownInline.InlineTiles | dashboard/src/components/Markdown.tsx:6-24 | shown and hidden pieces stand side by side and spell the text out; hidden ones are delimiters, escape marks and the brackets and target of an accepted link, and nothing else; shown ones are not empty |
| MarkdownInline.TokenDelimiters | dashboard/src/components/Markdown.tsx:13-18 | what stands around the content of a match is syntax of its style |
| MarkdownInline.InlineMapped | dashboard/src/components/Markdown.tsx:6-24 | every call at any depth of nesting is a non-empty slice of the source at its offset, in order and disjoint |
| InlineShapes.TokenScanned | dashboard/src/components/Markdown.tsx:8 | what matches at a position, character by character: a code span between equal runs of ticks, the shortest text between doubled marks, text without the mark between single ones, a link, an escape |
| InlineShapes.TargetScanned | dashboard/src/components/Markdown.tsx:17 | a target is accepted exactly if it starts, in capitals or not, with http://, https:// or mailto: |
| InlinePrinting.PrintedIsShown | dashboard/src/components/Markdown.tsx:6-24 | rendering undoes printing: markup of any depth, printed as source text, is shown as its leaves, each at its offset; code and escapes are not read further, and a link with a refused target is shown as written |
| MarkdownBlocks.ScanEnd | dashboard/src/components/Markdown.tsx:32 | the inner loops stop at the first line they do not take |
| MarkdownBlocks.NestedIsSmaller | dashboard/src/components/Markdown.tsx:46-59 | quoted text and list children are strictly smaller, counting a line as its length and one, so the recursion ends |
| MarkdownBlocks.BlockAt | dashboard/src/components/Markdown.tsx:28-65 | every block starts where it is tried and takes at least that line |
| MarkdownBlocks.ListEnd | dashboard/src/components/Markdown.tsx:53-60 | the list branch always takes its first line |
| MarkdownBlocks.ParseBlocks | dashboard/src/components/Markdown.tsx:25-68 | the loop over the lines yields the blocks of the recursive definition |
| MarkdownBlocks.ParseBlock | dashboard/src/components/Markdown.tsx:28-65 | one turn of the loop, branch by branch in order |
| MarkdownBlocks.ParseFence | dashboard/src/components/Markdown.tsx:29-35 | the body up to the closing fence, which is consumed if there is one |
| MarkdownBlocks.ParseTable | dashboard/src/components/Markdown.tsx:39-43 | header and rows, up to the first line without a pipe |
| MarkdownBlocks.ParseQuote | dashboard/src/components/Markdown.tsx:44-49 | the quoted lines without their marks, an alert label, and the blocks inside |
| MarkdownBlocks.ParseList | dashboard/src/components/Markdown.tsx:50-62 | the items of one indentation and kind |
| MarkdownBlocks.ParseItem | dashboard/src/components/Markdown.tsx:54-60 | an item: its check box, its text and the blocks of its dedented children; which lines are its children is stated over the characters in BlockShapes.ListShape |
| MarkdownBlocks.ParseParagraph | dashboard/src/components/Markdown.tsx:63-65 | the lines up to the first that cannot continue a paragraph |
| MarkdownBlocks.TableAboveBlankLine | dashboard/src/components/Markdown.tsx:39 | a line with a pipe above a blank line starts a table |
| BlockShapes.BlockKinds | dashboard/src/components/Markdown.tsx:28-65 | the characters of a line decide the kind of block it starts, in the order fence, heading, rule, table, quote, list, paragraph |
| BlockShapes.FenceShape | dashboard/src/components/Markdown.tsx:29-35 | a fence holds every line up to the first with white space around at least as many of its mark, and its info is trimmed |
| BlockShapes.HeadingShape | dashboard/src/components/Markdown.tsx:36-37 | a heading is one line, and its title starts after the white space that follows the marks |
| BlockShapes.TableShape | dashboard/src/components/Markdown.tsx:39-43 | a table has its first line as header and, after the separator, the longest run of lines with a pipe as rows |
| BlockShapes.QuoteShape | dashboard/src/components/Markdown.tsx:44-49 | a quote holds the longest run of lines whose first character that is not white space is ">", without it and one space; one of five labels on the first line is shown instead of it |
| BlockShapes.ListShape | dashboard/src/components/Markdown.tsx:50-62 | a list is the items of one indentation and kind that follow one another; an item takes the longest run of lines with text after more white space than its own, moved left by at most the width of its marker, and a check box in its text |
| BlockShapes.SiblingItems | dashboard/src/components/Markdown.tsx:53-57 | neighbouring lines with markers of one indentation and kind are two items, and the first has no children |
| BlockShapes.ParagraphShape | dashboard/src/components/Markdown.tsx:63-65 | a paragraph takes every line with text that has none of the stopping shapes and starts no table |
| BlockShapes.BlocksInPlace | dashboard/src/components/Markdown.tsx:27-66 | each block of the lines is the one that starts on its first line |
| MarkdownDocument.BlocksFromMapped | dashboard/src/components/Markdown.tsx:25-68 | through quotes, nested lists, tables and headings, every call is a slice of the source at its offset, in order, inside the remaining lines |
| MarkdownDocument.BlockMapped | dashboard/src/components/Markdown.tsx:28-65 | the calls for one block stay inside the lines it consumed |
| MarkdownDocument.ItemsMapped | dashboard/src/components/Markdown.tsx:53-60 | the same for list items and their children |
| MarkdownDocument.BlocksConsume | dashboard/src/components/Markdown.tsx:27-66 | the blocks take ordered, disjoint stretches of lines that start with text; only blank lines are left over |
| MarkdownDocument.OneBlockEach | dashboard/src/components/Markdown.tsx:27-66 | a line with text lies in exactly one block |
| MarkdownDocument.EmptyFragments | dashboard/src/components/Markdown.tsx:25-68 | fragments are non-empty exactly when no fenced code, at any depth, holds an empty line |
| MarkdownDocument.EmptyFragmentExample | dashboard/src/components/Markdown.tsx:29-35 | a fence around one empty line calls the renderer with an empty string |
| MarkdownDocument.RenderMarkdown | dashboard/src/components/Markdown.tsx:69 | a whole document: fidelity, order, disjointness, consumption and the exact non-emptiness condition |
| MarkdownDocument.DocumentMapped | dashboard/src/components/Markdown.tsx:69 | the fragments of a document are ordered, disjoint slices of its text |
| TextShown.NothingLost | dashboard/src/components/Markdown.tsx:25-69 | every letter on a line without pipe, "]" and fence marks is shown by some call at its own offset, through quotes and lists of any depth |
| MarkdownQuoting.QuoteWrapsBlocks | dashboard/src/components/Markdown.tsx:44-49 | putting "> " before every line of any document yields one quote that holds the blocks of the bare lines |
| Outline.MarkdownHeadings | dashboard/src/components/document/markdownModel.ts:9-19 | the entries of the contents list, by one pass over the lines |
| Outline.OutlineIsRendered | dashboard/src/components/document/markdownModel.ts:9-19 | for every text, the entries are the headings rendered outside quotes and lists, in order, with their levels and ids, if and only if the outline is outside every fence at just those heading lines at which a heading is rendered |
| Outline.PlainBlocksAgree | dashboard/src/components/document/markdownModel.ts:9-19 | on lines without U+2028 and U+2029 they agree if fenced code holds no closing marks with text after them, and tables and lists hold no heading line and only fences that end with the block |
| Outline.LooseFenceExample | dashboard/src/components/document/markdownModel.ts:12-13 | a text with such a line in a fence, where the list has an entry that is shown as code |
| AnnotationOverlay.BoundsAreCuts | dashboard/src/pages/ArtifactAnnotations.tsx:58 | the cut points: both ends and every boundary strictly inside, once each, ascending |
| AnnotationOverlay.FragmentOverlay | dashboard/src/pages/ArtifactAnnotations.tsx:56-64 | the pieces spell the fragment out, and each character carries exactly the annotations that contain it, so a piece is wholly inside or outside each |
| AnnotationOverlay.BadgesInPlace | dashboard/src/pages/ArtifactAnnotations.tsx:62 | an annotation has its badge once if its first character lies in the pieces, and otherwise not |
| AnnotationOverlay.MarkedInPlace | dashboard/src/pages/ArtifactAnnotations.tsx:60-62 | the text marked with an annotation is the part of the fragment that it covers |
| AnnotationOverlay.ViewOverlay | dashboard/src/pages/ArtifactAnnotations.tsx:56-64 | the same over all fragments of a view |
| AnnotationOverlay.RawView | dashboard/src/pages/ArtifactAnnotations.tsx:75 | in the raw view a non-empty annotation inside the text is marked in full with exactly one badge |
| AnnotationOverlay.FormattedView | dashboard/src/pages/ArtifactAnnotations.tsx:75 | in the formatted view an annotation has at most one badge, and one exactly when its first character is shown |
| SelectionCapture.CaptureExact | dashboard/src/components/document/markdownModel.ts:33-46 | the source range between the two ends of a selection holds exactly the characters of the leaves that are selected |
| SelectionCapture.CapturedIsMarked | dashboard/src/pages/ArtifactAnnotations.tsx:23-64 | an annotation made of a captured selection marks exactly the text that was selected |
| SelectionCapture.SelectionTaken | dashboard/src/pages/ArtifactAnnotations.tsx:23-29 | a selection of visible text that starts in no badge or control is always captured |
| TextAnchors.OffsetRoundTrip | dashboard/src/pages/artifactReviewModel.ts:31-44 | a code-unit offset comes back from its stored byte offset, exactly unless the text starts with a byte order mark |
| TextAnchors.SplitBytesFail | dashboard/src/pages/artifactReviewModel.ts:38-44 | a byte offset inside a character is an error |
| TextAnchors.AnchorRoundTrip | dashboard/src/pages/artifactReviewModel.ts:46-64 | an anchor leads back to its selection and to the text it quotes |
| TextAnchors.SelectionAnchored | dashboard/src/pages/artifactReviewModel.ts:46-52 | the anchor of any selected characters holds their byte offsets and quotes them, unless there are none or they have more than 16384 bytes |
| TextAnchors.MarkedAnchorExample | dashboard/src/pages/artifactReviewModel.ts:38-44 | with a byte order mark an anchor does not validate |
| DraftEditor.Editor.constructor | dashboard/src/pages/WorkflowsPage.tsx:109-114 | selecting a draft loads it clean |
| DraftEditor.Editor.SetDocument | dashboard/src/pages/WorkflowsPage.tsx:171 | an edit retires validation, preview and publish requests and is based on the revision of the render it runs in, unless that render blocks it |
| DraftEditor.Editor.SetLayout | dashboard/src/pages/WorkflowsPage.tsx:172 | a layout change makes the editor dirty and keeps the validation |
| DraftEditor.Editor.Rename | dashboard/src/pages/WorkflowsPage.tsx:239 | renaming changes document and layout together |
| DraftEditor.Editor.Add | dashboard/src/pages/WorkflowsPage.tsx:255-256 | adding a node that needs no definition moves the layout even when the document may not change |
| DraftEditor.Editor.OnDefinition | dashboard/src/pages/WorkflowsPage.tsx:227-266 | a handler that waited for an answer checks the generation, or that the document is still the very object it started from, or nothing, and then changes the document with the guard and the base of the render it was started in |
| DraftEditor.Editor.Autosave | dashboard/src/pages/WorkflowsPage.tsx:126-130 | the save request carries the base revision, document and layout under a new token |
| DraftEditor.Editor.OnSaved | dashboard/src/pages/WorkflowsPage.tsx:130-133 | a current response makes the editor clean at the saved revision |
| DraftEditor.Editor.OnSaveRejected | dashboard/src/pages/WorkflowsPage.tsx:134-138 | a conflict shows the reloaded draft, or an error if it cannot be loaded |
| DraftEditor.Editor.OnSaveFailed | dashboard/src/pages/WorkflowsPage.tsx:139-140 | a failure keeps the base revision |
| DraftEditor.Editor.OnOnline | dashboard/src/pages/WorkflowsPage.tsx:145 | coming online retries what failed |
| DraftEditor.Editor.TakeRemote | dashboard/src/pages/WorkflowsPage.tsx:337 | the remote draft replaces the local one |
| DraftEditor.Editor.Keep | dashboard/src/pages/WorkflowsPage.tsx:337 | the local document is rebased on the remote revision |
| DraftEditor.Editor.Validate | dashboard/src/pages/WorkflowsPage.tsx:185-188 | only a clean draft is validated, with its evidence |
| DraftEditor.Editor.OnValidated | dashboard/src/pages/WorkflowsPage.tsx:189-195 | a report counts only for the evidence it was asked for |
| DraftEditor.Editor.OpenDialog | dashboard/src/pages/WorkflowsPage.tsx:203-208 | publishing is offered for a validated document |
| DraftEditor.Editor.PublishDraft | dashboard/src/pages/WorkflowsPage.tsx:209-214 | a publish request goes out exactly when the gate holds; the gate and the identity are stated field by field in DraftPublishing |
| DraftEditor.Editor.OnPublished | dashboard/src/pages/WorkflowsPage.tsx:215-217 | a result is shown only if it names the request and its identity |
| DraftEditor.Editor.OnPublishRefused | dashboard/src/pages/WorkflowsPage.tsx:218-223 | a refused publish shows a conflict, a validation failure or an error |
| DraftEditor.Editor.OnChatDraft | dashboard/src/pages/WorkflowsPage.tsx:289-296 | a draft from the chat replaces everything and retires all requests |
| DraftEditor.Editor.OnChatReport | dashboard/src/pages/WorkflowsPage.tsx:297-301 | a report from the chat counts only for the current draft |
| DraftEditor.Editor.OnChatConflict | dashboard/src/pages/WorkflowsPage.tsx:302-304 | a conflict from the chat retires no request |
| DraftProtocol.HandleAll | dashboard/src/pages/WorkflowsPage.tsx:109-306 | the handlers run one after the other are a run of the model, request by request |
| DraftProtocol.StepCore | dashboard/src/pages/WorkflowsPage.tsx:109-144 | every event keeps the invariant: what the client holds is authentic, and every base, that of a waiting handler included, is a revision it adopted, overrode by choice, or was answered with |
| DraftSafety.NoLostUpdate | dashboard/src/pages/WorkflowsPage.tsx:126-144 | revisions never change, and a save replaces only a revision whose content the client had received |
| DraftSafety.ForeignNeedsKeep | dashboard/src/pages/WorkflowsPage.tsx:337 | over a run, a revision that never was the content of the editor is replaced only after the explicit choice made while it was shown, or after a save was answered with it |
| DraftSafety.OverwriteExactly | runtime/src/adapters/statestore/sqlite/workflows.go:168-192 | an event lets the autosave replace a latest revision that the client neither took up nor chose to overwrite, if and only if it is the answer to a save and carries that revision |
| DraftSafety.Overwritable | dashboard/src/pages/WorkflowsPage.tsx:130-133 | a revision becomes overwritable in these two ways and in no other |
| DraftSafety.StepSync | dashboard/src/pages/WorkflowsPage.tsx:109-144 | every event but those three keeps clean equal to saved |
| DraftSafety.QuietRuns | dashboard/src/pages/WorkflowsPage.tsx:109-144 | in every run without them, clean at revision r means that the document is the server's document of r |
| DraftSafety.CleanFailsExactly | dashboard/src/pages/WorkflowsPage.tsx:130-306 | an event can make clean wrong, now or later, if and only if, while a save that may have been taken is awaited, it shows a conflict or is a late change of a handler that waited, or it is the answer to that save and carries another document |
| DraftSafety.DisturbedRunLies | dashboard/src/pages/WorkflowsPage.tsx:171-306 | the continuation that makes it wrong |
| DraftSafety.RevisionDecides | dashboard/src/pages/WorkflowsPage.tsx:131-133 | clean is right whatever others wrote exactly if the answer carries the revision after the base of the save |
| DraftSafety.CleanCanLie | dashboard/src/pages/WorkflowsPage.tsx:227-306 | for each of the three ways, a run from a freshly loaded draft that ends clean with unsaved work |
| DraftSafety.GateStep | dashboard/src/pages/WorkflowsPage.tsx:185-226 | what is shown as valid, offered or sent was reported valid |
| DraftSafety.PublishOnlyVerified | dashboard/src/pages/WorkflowsPage.tsx:209-214 | in every run a publish request names a server revision, its document's digest and a report that found it valid, and the editor is clean |
| DraftSafety.PublishedAnswers | dashboard/src/pages/WorkflowsPage.tsx:214-217 | in every run a published result names the draft, revision, identity and validation digest of a request, with no edit since it was sent |
| DraftSafety.GenerationCounts | dashboard/src/pages/WorkflowsPage.tsx:171 | the generation counts the edits of a run |
| DraftPublishing.PublishSent | dashboard/src/pages/WorkflowsPage.tsx:209-213 | a publish request goes out exactly from a clean editor with an open dialog for the draft in it, which a report found valid; otherwise nothing changes but the dialog |
| DraftPublishing.ResultShown | dashboard/src/pages/WorkflowsPage.tsx:215-218 | a result is shown exactly if it is current and has, field by field, the identity, scope, version, validation digest and digest of what was asked for |
| DraftPublishing.RightResultShown | dashboard/src/pages/WorkflowsPage.tsx:209-218 | after a request, with no edit and no other request since and the same draft in the editor, whatever else happened, the result is shown exactly if it is the right one |
| DraftPublishing.PublishedIdentity | dashboard/src/pages/WorkflowsPage.tsx:213-218 | in every run that shows a published result its name, reference and scope are those of a revision of the server, its version was asked for, and a report found that revision valid |
| DraftPublishing.EditIsSaved | dashboard/src/pages/WorkflowsPage.tsx:126-133 | an edit of a clean draft ends up as the next revision of the server, and the editor clean at it |
| DraftPublishing.EditIsPublished | dashboard/src/pages/WorkflowsPage.tsx:126-218 | an edit that is saved, found valid and published is shown as published |
| DraftHandlers.EventAfter | dashboard/src/pages/WorkflowsPage.tsx:126-306 | after any event the document, the layout, the draft, the state of saving, the validation and the dialog are what six tables over the events say: which events change each, from what, and to what |
| DraftHandlers.EarlierAnswersIgnored | dashboard/src/pages/WorkflowsPage.tsx:130-223 | however late, the answer to an earlier request is not heard after an edit, a draft from the chat, or another request of its kind |
| DraftHandlers.AdditionLands | dashboard/src/pages/WorkflowsPage.tsx:248 | in every run an addition that waited adds its node to the very document it started from |
| DraftHandlers.LostSaveIsRetried | dashboard/src/pages/WorkflowsPage.tsx:139-145 | a save that was lost is sent again with the work as it is then |
| DraftHandlers.KeptWorkIsSaved | dashboard/src/pages/WorkflowsPage.tsx:337 | keeping the local work saves it over the revision that was shown |
| AgentLog.ConcatBytes | dashboard/src/pages/agentsModel.ts:143-148 | a fresh buffer filled with the two parts |
| AgentLog.MergeAgentLogWindow | dashboard/src/pages/agentsModel.ts:111-130 | the merged and trimmed window, or the error of an invalid page or limit |
| AgentLog.MergeRefines | dashboard/src/pages/agentsModel.ts:111-130 | the window stays a slice of the log, with at most limit bytes and the omission flag right, exactly unless a continuing page ends before the window; it keeps the last bytes |
| AgentLog.InsidePageExample | dashboard/src/pages/agentsModel.ts:117-129 | a page inside the window breaks it |
| AgentLog.MergeAccepts | dashboard/src/pages/agentsModel.ts:111-130 | which pages and limits are refused, and with which error |
| AgentLog.MergeAllRefines | dashboard/src/pages/agentsModel.ts:111-130 | after any sequence of pages of a growing log the window is a slice of the log |
| AgentLog.TrimmingOnce | dashboard/src/pages/agentsModel.ts:117-129 | merging any split of a range page by page gives the window of merging it as one page |
| AgentLog.LogService.ReadAgentLog | runtime/src/api/streaming.go:94-140 | full pages of an append-only log with its size at the time; it fails exactly if its turn does, the cursor is outside the log, or the log is too long for a safe number |
| AgentLog.LogReader.OpenTail | dashboard/src/pages/AgentsPage.tsx:60-70 | the probe and at most four pages bring the window to the size that the probe saw, for every size and growth, and it holds all the last bytes that fit; it fails exactly if one of its requests does or the log is too long |
| AgentLog.LogReader.ReadPage | dashboard/src/pages/AgentsPage.tsx:72-73 | a page from the window's end keeps it a slice of the log, with the last bytes that fit; it fails exactly if its request does |
| AgentLog.LogReader.ReadLog | dashboard/src/pages/AgentsPage.tsx:55-84 | opening or following a log; it fails exactly if one of its own requests does or the log is too long, and then leaves the window as it was |
| ReviewPage.Page.OnLoaded | dashboard/src/pages/ArtifactReviewPage.tsx:73-88 | a load marks the page stale, current, or leaves it as it was |
| ReviewPage.Page.OnLoadFailed | dashboard/src/pages/ArtifactReviewPage.tsx:107-110 | a failed load marks a loaded page stale |
| ReviewPage.Page.SendDecision | dashboard/src/pages/ArtifactReviewPage.tsx:190-203 | a decision goes out exactly when the gate, the form and the allowed actions permit, for the session on display; field by field in ReviewGate.DecisionSentExactly |
| ReviewPage.Page.SendFeedback | dashboard/src/pages/ArtifactReviewPage.tsx:166-197 | a feedback set is created only for the text that is displayed, for the shown revision, and that must be the candidate's |
| ReviewPage.Page.OnFeedbackCreated | dashboard/src/pages/ArtifactReviewPage.tsx:346 | the submission repeats the session of the creation |
| ReviewPage.Page.OnRecorded | dashboard/src/pages/ArtifactReviewPage.tsx:198-205 | the server's answer becomes the current session |
| ReviewPage.Page.OnMutationFailed | dashboard/src/pages/ArtifactReviewPage.tsx:206-210 | a conflict marks the page stale and reloads |
| ReviewProtocol.AllowedDisplays | dashboard/src/pages/ArtifactReviewPage.tsx:159-173 | when the gate is open, the accepted session's candidate digest is what is displayed |
| ReviewProtocol.HandleAll | dashboard/src/pages/ArtifactReviewPage.tsx:73-211 | the handlers run one after the other are a run of the model, request by request |
| ReviewProtocol.StepKeeps | dashboard/src/pages/ArtifactReviewPage.tsx:73-211 | every event but an unnoticed reload keeps the invariant |
| ReviewProtocol.NoUnacceptedDecision | dashboard/src/pages/ArtifactReviewPage.tsx:73-211 | in every run without an unnoticed reload each decision and feedback set binds the session accepted last (first load, own result or acknowledgement), the same in everything but the decisions it allows, with its digest displayed and no change seen since; submissions repeat the session of their set |
| ReviewProtocol.UnacceptedExactly | dashboard/src/pages/ArtifactReviewPage.tsx:198-205 | an event makes a request possible that binds a session other than the accepted one, or goes out after a change was seen, if and only if it is the reload after an own result and something received since that result differs from it |
| ReviewProtocol.UnacceptedRequest | dashboard/src/pages/ArtifactReviewPage.tsx:198-205 | a run in which a request binds a session that was never accepted |
| ReviewProtocol.SentAfterChange | dashboard/src/pages/ArtifactReviewPage.tsx:190-211 | after a change nothing is sent but the second request of a feedback set |
| ReviewProtocol.SubmissionAfterChange | dashboard/src/pages/ArtifactReviewPage.tsx:333-350 | that request does go out when a poll sees a change between the two |
| ReviewGate.DecisionSentExactly | dashboard/src/pages/ArtifactReviewPage.tsx:190-203 | a decision goes out exactly if the session under review awaits a human, nothing has changed, nothing is under way, its exact candidate is displayed, the form holds and the session allows the decision |
| ReviewGate.FeedbackSentExactly | dashboard/src/pages/ArtifactReviewPage.tsx:166-197 | feedback goes out exactly under these conditions with the text of the candidate itself displayed |
| ReviewGate.DecisionsPermitted | dashboard/src/pages/ArtifactReviewPage.tsx:190-203 | in every run each decision that went out was allowed by the session it binds |
| ReviewGate.ChangedExactly | dashboard/src/pages/artifactReviewModel.ts:107-111 | a session counts as changed exactly if it differs in more than the decisions it allows |
| ReviewGate.PollKeepsCurrent | dashboard/src/pages/ArtifactReviewPage.tsx:73-88 | a poll leaves the page current exactly if it brings the first session or the one that is shown |
| ReviewGate.AcknowledgedIsCurrent | dashboard/src/pages/ArtifactReviewPage.tsx:80-88 | a change that is acknowledged can be decided on |
| ReviewGate.AfterRefusal | dashboard/src/pages/ArtifactReviewPage.tsx:206-211 | after a failure the page is as it was before the request; after a conflict it is stale and reloads |
| ReviewGate.AfterResult | dashboard/src/pages/ArtifactReviewPage.tsx:203-211 | an answered request makes the answer the session, and the reload ends the mutation |
| ReviewGate.FreshnessAfter | dashboard/src/pages/ArtifactReviewPage.tsx:73-211 | whether the page is current after each event |
| ReviewGate.BusyAfter | dashboard/src/pages/ArtifactReviewPage.tsx:190-211 | the mutation that is under way after each event |
| ReviewGate.RecordAfter | dashboard/src/pages/ArtifactReviewPage.tsx:73-211 | what the record of acceptance and change says after each event |
| SettingsEditor.ConfigurationEditor.Update | dashboard/src/pages/SettingsPage.tsx:234 | changing the draft draws a new key |
| SettingsEditor.ConfigurationEditor.Unmount | dashboard/src/pages/SettingsPage.tsx:167-231 | hiding the editor and showing it again draws a new key for the same draft |
| SettingsEditor.ConfigurationEditor.Display | dashboard/src/pages/SettingsPage.tsx:215-231 | an editor that was closed is mounted with a key of its own |
| SettingsEditor.ConfigurationEditor.BeginPreview | dashboard/src/pages/SettingsPage.tsx:235-238 | a preview starts for a draft that is well formed |
| SettingsEditor.ConfigurationEditor.OnPreview | dashboard/src/pages/SettingsPage.tsx:239 | the preview is shown with the draft it was asked for |
| SettingsEditor.ConfigurationEditor.OnRejected | dashboard/src/pages/SettingsPage.tsx:240 | a conflict keeps the draft and reloads |
| SettingsEditor.ConfigurationEditor.Apply | dashboard/src/pages/SettingsPage.tsx:242-247 | an apply goes out exactly for a valid preview of the displayed revision, with the draft's key |
| SettingsEditor.ConfigurationEditor.OnApplied | dashboard/src/pages/SettingsPage.tsx:248 | the key rotates only after the state has been reloaded |
| SettingsProtocol.HandleAll | dashboard/src/pages/SettingsPage.tsx:230-250 | the handlers run one after the other are a run of the model, request by request |
| SettingsProtocol.ServeKeeps | runtime/src/core/configmutation/service.go:241-286 | the server takes a key once, compares revisions, changes the scope's own file and that setting alone, and replays or refuses a known key |
| SettingsProtocol.OverlayAgrees | runtime/src/core/configmutation/service.go:464-514 | a change shows the same over two states of the other file exactly if it sets a value in the winning layer or the other file says the same of the setting |
| SettingsProtocol.AppliedEqualsPreviewed | dashboard/src/pages/SettingsPage.tsx:242-262 | in every run with concurrent writers of both files, an accepted apply made the change of its draft from the content shown as before, and nothing else; the content equals the previewed one, and the effective value the shown one, exactly under the two conditions |
| SettingsSafety.TornPreviewApplied | runtime/src/core/configmutation/service.go:221-239 | a write between the reads of a preview, taken back later, makes an accepted apply leave something else |
| SettingsSafety.OtherFileDecides | dashboard/src/pages/SettingsPage.tsx:262 | a write to the other file makes another value win than the one that was shown |
| SettingsSafety.UnchangedDraftAtMostOnce | dashboard/src/pages/SettingsPage.tsx:231-250 | through any events but a change, discard, completion or remount of the draft, losses and retries included, all applies carry one key and one change and take effect at most once in total |
| SettingsSafety.RemountExactly | dashboard/src/pages/SettingsPage.tsx:168-231 | once the draft has taken effect, with a request under way or not, an event that leaves it alone makes a second effect possible if and only if it remounts the editor |
| SettingsSafety.KeyDecides | dashboard/src/pages/SettingsPage.tsx:242-250 | an unchanged draft whose editor stays mounted can take effect if and only if the server has no receipt for its key, not even that of a conflict |
| SettingsSafety.PreviewAgainRefused | runtime/src/adapters/statestore/sqlite/commands.go:39-44 | the next apply after a conflict carries another revision under the same key and is refused |
| SettingsSafety.RemountAppliesTwice | dashboard/src/pages/SettingsPage.tsx:168-231 | a run in which a search in between makes one unchanged draft take effect twice |
| SettingsHandlers.PhaseAfter | dashboard/src/pages/SettingsPage.tsx:230-250 | the phases of the editor, and every way from one to another |
| SettingsHandlers.ShownAfter | dashboard/src/pages/SettingsPage.tsx:240-248 | what is on display of the file after each event |
| SettingsHandlers.KeyAfter | dashboard/src/pages/SettingsPage.tsx:231-248 | exactly when a key is drawn |
| SettingsHandlers.DueAfter | dashboard/src/pages/SettingsPage.tsx:238-249 | each request is answered or lost once |
| SettingsHandlers.AppliesExactly | dashboard/src/pages/SettingsPage.tsx:242-247 | an apply goes out exactly for a valid preview of the content on display, with the key, the draft and the preview |
| SettingsHandlers.PreviewsExactly | dashboard/src/pages/SettingsPage.tsx:235-238 | a preview is asked for exactly for a draft that holds while nothing is under way |
| SettingsHandlers.PreviewShows | runtime/src/core/configmutation/service.go:221-239 | what a preview shows, by the times at which the files were read |
| SettingsHandlers.ServesExactly | runtime/src/core/configmutation/service.go:241-286 | what the server does with an apply: a replay, a refusal, or the change of that setting in the one file |
| RunTranscript.PageExtends | dashboard/src/pages/RunLive.tsx:47-50 | any page, repeated ones included, keeps what is shown the log's prefix; the cursor rises with every full page |
| RunTranscript.TranscriptService.GetRunTranscript | runtime/src/core/runexecution/transcript.go:28-47 | a page of events after the cursor, in position order; it fails exactly if its turn does |
| RunTranscript.LiveTranscript.Poll | dashboard/src/pages/RunLive.tsx:43-55 | through failures and retries the events are the log's prefix up to the cursor; a poll fails exactly if one of its own requests does, and otherwise shows the whole log; the page loop ends |
| IngestSaga.ArtifactService.Ingest | dashboard/src/pages/ArtifactsPage.tsx:92 | at most one artifact for a key |
| IngestSaga.ArtifactService.Attach | dashboard/src/pages/ArtifactsPage.tsx:98 | at most one binding for a key |
| IngestSaga.IngestDialog.Submit | dashboard/src/pages/ArtifactsPage.tsx:85-107 | one submit: what it creates and binds is under the round's keys, the target is that of the submit that saw the ingestion succeed, and keys rotate only on success; it succeeds exactly if the form or what is stored holds, ingesting and attaching are answered, and the key has no other source |
| IngestSaga.IngestDialog.SubmitAll | dashboard/src/pages/ArtifactsPage.tsx:85-107 | over any sequence of failing and retried submits at most one artifact and one binding exist for each round, and exactly one for a finished round |
| PercentEncoding.Utf8RoundTrip | dashboard/src/api/client.ts:61 | the bytes of a scalar value are well formed and lead back to it |
| PercentEncoding.RoundTrip | dashboard/src/app/router.tsx:85 | decoding undoes encoding for every string |
| PercentEncoding.EncodedPlain | dashboard/src/api/client.ts:61 | an encoded string has no slash, brace or dollar sign, and is empty only for the empty string |
| PercentEncoding.EncodedCharacter | dashboard/src/api/client.ts:61 | letters, digits and nine marks stay as they are; any other character becomes the escapes of its bytes |
| PercentEncoding.OnlyItsBytes | dashboard/src/app/router.tsx:85 | a byte sequence leads to a character exactly if it is the bytes of that character, so no overlong form or surrogate is read |
| PercentEncoding.HexRead | dashboard/src/app/router.tsx:85 | hexadecimal digits are read in both cases |
| Routes.FindRoute | dashboard/src/app/router.tsx:72-89 | the lookup over the route table |
| Routes.RoutesAreDisjoint | dashboard/src/app/router.tsx:37-51 | no path matches two routes, so their order does not matter |
| Routes.OnlyMatch | dashboard/src/app/router.tsx:76-86 | a route that matches is the one that is found |
| Routes.LinkRoundTrip | dashboard/src/app/router.tsx:72-89 | the link to any route with any non-empty ids leads back to the route and the ids, with or without a slash at the end |
| Routes.MatchExactly | dashboard/src/app/router.tsx:78-84 | a path matches a route with exactly the non-empty texts without slashes that fill the route to it |
| Routes.PathLeads | dashboard/src/app/router.tsx:72-89 | where any path leads: to the board, to the route that it fills with the texts decoded, to an error, or nowhere |
| Routes.PlainRoutes | dashboard/src/app/router.tsx:38-49 | the routes that are one word, with their ids |
| Routes.ParameterRoutes | dashboard/src/app/router.tsx:42-50 | the routes with one parameter at the end |
| Routes.ReviewRoute | dashboard/src/app/router.tsx:43 | the route of an artifact review |
| Routes.RunRoutes | dashboard/src/app/router.tsx:40-41 | the routes of a run |
| PathTemplates.FillPath | dashboard/src/api/client.ts:60-62 | the path of a request, or the missing parameter |
| PathTemplates.FillsAll | dashboard/src/api/client.ts:61 | replacing placeholders one after the other is substituting them all at once |
| PathTemplates.TemplatesFill | dashboard/src/api/client.ts:60-62 | the same, and the request fails exactly when a placeholder has no argument |
| PathTemplates.OneParameter | dashboard/src/api/client.ts:60-62 | a placeholder is the name in braces |
| Naming.Mapping | dashboard/src/pages/WorkflowAuthoringInspector.tsx:193 | the map read from text, line by line |
| Naming.ParseSound | dashboard/src/pages/WorkflowAuthoringInspector.tsx:193 | a map that is accepted has distinct identifiers as keys and trimmed single-line values |
| Naming.FormatRoundTrip | dashboard/src/pages/WorkflowAuthoringInspector.tsx:185-193 | reading undoes printing exactly for the maps of that form |
| MapLines.ParseReads | dashboard/src/pages/WorkflowAuthoringInspector.tsx:193 | what reading a text gives, line by line: the entries in order, the number of the first line that gives none, or the first key that comes again |
| MapLines.LinesSpell | dashboard/src/pages/WorkflowAuthoringInspector.tsx:193 | the lines, joined by line feeds with the carriage returns before them, spell the text |
| MapLines.IdentifierSpelled | dashboard/src/pages/WorkflowAuthoringInspector.tsx:193 | an identifier is one to 64 small letters, digits and underscores, a letter first |
| MapLines.CandidateSpelled | dashboard/src/pages/WorkflowAuthoringInspector.tsx:225 | a fresh name is the base, an underscore and the number without leading zeros; the base is cut only if the whole would have more than 64 characters, and then it has 64 |
| MapLines.ParentSpelled | dashboard/src/pages/WorkflowsPage.tsx:250 | the name tried for a child's run input |
| Naming.CandidatesDiffer | dashboard/src/pages/WorkflowAuthoringInspector.tsx:225 | different indices give different names, even where the base is cut |
| Naming.UniqueIdentifier | dashboard/src/pages/WorkflowAuthoringInspector.tsx:225 | the base if it is unused, or else the first unused candidate, which has at most 64 characters and is an identifier if the base is; it fails exactly when the base and all candidates are used, never below 9998 used names |
| Naming.ParentFor | dashboard/src/pages/WorkflowsPage.tsx:250 | the search for a run input ends, with the first name that can serve the child |
| Naming.MapInputs | dashboard/src/pages/WorkflowsPage.tsx:249-251 | no existing run input changes, every new one is a child's declaration, and every child is served by a run input of its own type |
| MapLines.ChildrenServed | dashboard/src/pages/WorkflowsPage.tsx:249-251 | the same promise spelled out for every child and every run input |

## Left out

- React rendering, the DOM, selection, focus, scrolling, timers and browser history: platform behaviour.
- `fetch`, headers, streaming, abort signals and generated schemas: responses are values that may be lost or late.
- `decode*` validators, labels, formatting, tab keys, popup placement: they would only add easy members.
- Layout in the draft editor: clean does not cover it, because lines 255, 329 and 334 of `WorkflowsPage.tsx` set the layout without the guard; the event `Place` keeps that behaviour and nothing is claimed about it.
- Switching between drafts, creating, duplicating and archiving drafts, and the route preview: one draft stays selected.
- The reload after a rejected save or publish is part of the rejection step; the code does not recheck its token.
- Closing and cancelling dialogs of the ingest saga, and its impact assessment, which writes nothing.
- Settings: restoring, resetting and secrets; switching to another scope or setting, since both stay fixed.
- SettingsProtocol.ServeKeeps: does not model a server that stops between recording a key and completing it, nor two executions under one key at once; the promise about retries is for a server that is idempotent by key.
- AgentLog.LogReader.ReadLog: one read at a time. The effect's read and the interval's read of the page can overlap, and then the later of two answers can move the window's end back; the window is still a slice of the log by `AgentLog.MergeRefines`.
- Outline: the texts of the entries, and headings inside quotes and lists, which the contents list never has.
- Review: comment length limits, diff entries beyond their digests, iteration activity and logs.
- RunTranscript.LiveTranscript.Poll: its page loop is proved to end for any finite growth of the log during one poll; a log that grew by a full page before every request would keep it reading.
- IngestSaga.IngestDialog.Submit: one submit at a time, as the disabled button ensures; artifacts of other clients are not in the store.
- Route titles and sections, and what a browser does to the path segments "." and "..".
- `latestArtifacts`, `uniqueTokens`, `revisionsForArtifact`, `previousRevision`: a sort, a filter or a first match each, which would only add easy members.
- Two child inputs of a sub-workflow may be served by one run input of their common type; nothing promises otherwise.
- How the browser finds which leaves stand before a point that is in none of them (`sourceEndpoint`): that count is given.
- No control starts the handler that makes a definition of the selected node (`WorkflowsPage.tsx` line 258); it is modelled with the two that are used.
