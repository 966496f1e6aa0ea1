# Friday: models and proofs

This project models the self-contained state machines and text transformations of the Friday
agent runtime and proves what they promise over all inputs and all runs. Every file is Dafny;
`dafny verify dfyconfig.toml` checks the whole project.

| files | component | main results |
|---|---|---|
| `Utf16`, `CanonicalJson`, `JsonReader`, `CanonicalJsonProofs` | the canonical printer behind digests and signatures | a reader of the JSON grammar gets every printed tree back; no JSON text of a tree is shorter; two values get the same text exactly when they mean the same |
| `ActionGate`, `ActionGateProofs`, `ActionGateMeaning` | the mutating-action gate | every answer of the gate in terms of the request, with reason, denier and ticket; what the digest and the signature bind; the exact meaning of "allow"; one ticket per use key and per signed payload in every run |
| `Browser`, `BrowserProofs`, `BrowserAnswers`, `BrowserManager` | the browser manager as an allocator of pages | what each call answers and leaves behind; the page bound in every interleaving of awaits; session and tab limits without overlap, with the exact condition |
| `AuditLog`, `AuditLogText`, `AuditLogLines`, `AuditLogProofs`, `AuditLogDamage`, `AuditLogRetention` | the audit-log writer | what is never lost: only the rotation of a file above its limit loses text, and it keeps the newest lines; no overlap and no blocking in every interleaving; exactly when the file stays a suffix of the history, and what is left of that otherwise |
| `Sanitizer`, `SanitizerMeaning`, `SafeInstallDir`, `SafeInstallDirProofs`, `SafeInstallDirMeaning` | install directory names | what is made of every name and the verdict on every id, character by character; the escape error is unreachable; accepted ids name distinct directories; exactly which names the sanitizer leaves alone, refuses, and changes when applied twice |
| `OutboundFormatting`, `OutboundFormattingProofs`, `OutboundMeaning` | the outbound formatter | what every channel sends: which text is code, which is strong, and what becomes of it; rescanning the output finds the same code spans, for exactly which transforms |
| `InboundDebouncer`, `InboundDebouncerProofs`, `InboundDebouncerMeaning` | the inbound debouncer | which messages wait and which are handed on at once; nothing lost, duplicated or reordered per key in every run; exactly when a key stands for one author |
| `ConfigBackups` | config writing and backup rotation | the backups are the latest versions, newest first; only the oldest backup is ever lost |
| `ChannelRegistry` | starting channels | all or nothing, for any failures and any settling order, and exactly when |
| `Heartbeat` | heartbeat ticks | a tick executes exactly outside the cooldowns of earlier actions; the active window is a modular interval |
| `LinkCache` | the link cache and its service | the cache answers like a map that never deletes; cached summaries are fresh |
| `MediaPipeline`, `MediaMeaning` | media understanding | which attachments are processed and why the others are not; one decision per attachment; enrichments match the processed decisions |

`Common` and `Blanks` hold what the models share: decimal numbers and the white space of the source
language, listed one by one. The modules that end in `Meaning`, with `BrowserAnswers`, `AuditLogLines`,
`AuditLogRetention` and `JsonReader`, say what the operations do without using their definitions.

Code that updates state becomes a class (or a method with a loop) whose contract ties each
operation to a step function or states its result outright; the theorems are about those
functions. Code with awaits is split at them: each stretch between two awaits is one step, and a
run is any sequence of steps. Text that is hashed, signed or logged is a sequence of UTF-16 code
units (`Utf16.Text`), with lone surrogates; elsewhere it is a `string`.

Some properties one might expect do not hold of the code as written. Each has a failing input or
run and the exact condition under which it does hold:

- A session opens with one tab without asking for the tab limit (`BrowserProofs.TabLimitBroken`);
  the limit is kept exactly when it allows one tab or no session can be opened
  (`BrowserProofs.TabLimitExactly`).
- The sanitizer is not idempotent (`Sanitizer.SanitizerIsNotIdempotent`); a second pass changes
  nothing exactly when the text that reaches the last pass has no even number of dots between two
  slashes or two hyphens (`Sanitizer.SanitizedTwice`).
- With an approval at hand an added claim can turn deny into allow (`ActionGateProofs.ClaimCanLoosen`),
  exactly when it raises the request to the one the approval was given for
  (`ActionGateProofs.ClaimLoosensExactly`).
- `startAll` leaves a started channel running when its stop throws before returning a promise
  (`ChannelRegistry.ThrownStopExample`); it is all or nothing exactly when no connect fails or no
  stop of a started channel throws (`ChannelRegistry.AllOrNothingExactly`).
- A file operation that breaks off can leave an audit log that is no suffix of its history
  (`AuditLogDamage.DamagingRun`). In every interleaving the log is one all along exactly when no
  operation breaks off at a place that shows (`AuditLogDamage.WholeExactly`): where no record
  repeats, that is an append that has left something or a rewrite that has not left everything
  (`AuditLogDamage.ShowsUnlessRepeated`). A damaged log still ends with every record written since,
  until a rotation drops the damage (`AuditLogProofs.FileIsSuffixOfHistory`,
  `AuditLogProofs.RotationHeals`).
- The debouncer's key does not always stand for one sender in one chat
  (`InboundDebouncerProofs.KeysClash`); another author can share the key of a message exactly when
  its channel kind, sender or chat id contains a colon (`InboundDebouncerProofs.KeyIsSharedExactly`).
- The id validator does not always answer (`SafeInstallDirProofs.HyphenThrows`); it throws exactly on
  ids of dots and hyphens only, within the length limit, without ".." and other than "."
  (`SafeInstallDirProofs.ThrowsExactly`).

The formatter's only transform keeps the code spans. Others need not: a transform that empties a
segment can join two spans (`OutboundFormattingProofs.EmptyingJoinsCode`), and rescanning works
for exactly the transforms that keep segments nonempty and free of backticks
(`OutboundFormattingProofs.RescanExactly`).

## Model

| member | source | states |
|---|---|---|
| `CanonicalJsonProofs.EscapePrefix` | src/security/friday-mutating-action-gate.ts:770-772 | Escaped strings are uniquely decodable up to the closing quote: whatever follows it, equal texts come from equal strings and equal rests |
| `CanonicalJsonProofs.PrintPrefix` | src/security/friday-mutating-action-gate.ts:770-772 | Unique parsing: a text starts with the print of at most one JSON tree that a delimiter or the end follows |
| `CanonicalJsonProofs.PrintInjective` | src/security/friday-mutating-action-gate.ts:770-772 | Trees of any depth with the same text are the same tree |
| `CanonicalJsonProofs.ParsePrint` | src/security/friday-mutating-action-gate.ts:770-772 | The printed text is JSON: a reader written from the grammar of RFC 8259, with its own code units, gets back every tree |
| `CanonicalJsonProofs.PrintIsShortest` | src/security/friday-mutating-action-gate.ts:770-772 | No JSON text of a tree is shorter than the printed one: no white space and no needless escape |
| `CanonicalJsonProofs.EscapeDigits` | src/security/friday-mutating-action-gate.ts:770-772 | A control character without a letter of its own is printed with a zero-padded lower-case number |
| `CanonicalJsonProofs.KeyOrderIsTotal` | src/security/friday-mutating-action-gate.ts:798-802 | The order in which the members end up (array indices by value, then code units) is irreflexive and total |
| `CanonicalJsonProofs.KeyOrderMeans` | src/security/friday-mutating-action-gate.ts:798-802 | Array indices come first, by the number their digits stand for; all other keys follow by code units |
| `CanonicalJsonProofs.NormalizeIsOrdered` | src/security/friday-mutating-action-gate.ts:774-808 | Every object in a normal form, at any depth, has its keys strictly ascending |
| `CanonicalJsonProofs.NormalizeKeepsMeaning` | src/security/friday-mutating-action-gate.ts:774-808 | The normal form means what the value means: members as a finite map without undefined, function and symbol members |
| `CanonicalJsonProofs.OrderedDetermined` | src/security/friday-mutating-action-gate.ts:795-805 | Two ordered trees with the same meaning are the same tree, so member order in the input does not matter |
| `CanonicalJsonProofs.CanonicalTextExact` | src/security/friday-mutating-action-gate.ts:770-808 | For all values of any depth: same canonical text if and only if same meaning |
| `ActionGateMeaning.StableTextReads` | src/security/friday-mutating-action-gate.ts:770-808 | Read back, the canonical text of a value is a tree that means what the value means |
| `CanonicalJsonProofs.PrintIsClean` | src/security/friday-mutating-action-gate.ts:770-772 | Printed text has no control character and no lone surrogate, so encoding it as UTF-8 loses nothing |
| `ActionGate.DeriveRisk` | src/security/friday-mutating-action-gate.ts:595-607 | The loop computes the fold, which is the maximum of the base risk and all claimed risks |
| `ActionGateProofs.FoldRiskIsMaximum` | src/security/friday-mutating-action-gate.ts:595-607 | The derived risk is among base and claims and none of them is above it |
| `ActionGateMeaning.RiskIsHighest` | src/security/friday-mutating-action-gate.ts:595-607 | In the order read-only, low, medium, high, critical, the risk is the highest of the stated and all claimed ones |
| `ActionGateProofs.RiskIgnoresClaimOrder` | src/security/friday-mutating-action-gate.ts:595-607 | Reordered claims give the same risk |
| `ActionGateProofs.DigestTextBinds` | src/security/friday-mutating-action-gate.ts:258-286 | Two requests hash the same text if and only if they agree in every bound part: action, actor, surface, resource, mutation flag, risk, parameters, plan, rollback and idempotency key |
| `ActionGateMeaning.DigestTextSays` | src/security/friday-mutating-action-gate.ts:258-286 | The hashed text reads as a JSON record with exactly the named members, each with the value the request has |
| `ActionGateMeaning.ResultCarries` | src/security/friday-mutating-action-gate.ts:383-387 | Every answer names the request's risk and claims, and the hash of such a text |
| `ActionGateProofs.SignatureTextBinds` | src/security/friday-mutating-action-gate.ts:299-306 | Two approvals sign the same text if and only if they agree in decision, id, decider, digest, reason, expiry and parent ticket |
| `ActionGateMeaning.SignatureTextSays` | src/security/friday-mutating-action-gate.ts:299-306 | The signed text reads as a JSON record with exactly the named members, each with the value the approval has |
| `ActionGateMeaning.SignatureMeans` | src/security/friday-mutating-action-gate.ts:308-326 | A signature verifies if and only if the gate is named as issuer and 64 hexadecimal digits of either case spell the keyed hash |
| `ActionGateProofs.SignedApprovalVerifies` | src/security/friday-mutating-action-gate.ts:288-326 | Signing and verifying round-trip, in either hex case of the signature |
| `ActionGateProofs.UseKeyUnambiguous` | src/security/friday-mutating-action-gate.ts:328-342 | Equal use keys if and only if the four parts are equal, although approval ids may contain colons |
| `ActionGate.Gate.CheckApproval` | src/security/friday-mutating-action-gate.ts:421-517 | Digest binding, signature, decision and expiry are checked in the order of the code and give the first fault |
| `ActionGate.Gate.Evaluate` | src/security/friday-mutating-action-gate.ts:383-592 | The result and the new consumed set are those of the specification, for every request, clock reading and ticket id |
| `ActionGate.Gate.UseApproval` | src/security/friday-mutating-action-gate.ts:545-590 | A spent use key is denied; an unspent one is spent and buys a ticket for this request |
| `ActionGateMeaning.ReservedExactly` | src/security/friday-mutating-action-gate.ts:178-256 | The gate refuses an action as reserved if and only if the actor is an agent and the action, without blanks around it and in any case, is approve, deny, system.approve or system.deny |
| `ActionGateMeaning.GuardDenies` | src/security/friday-mutating-action-gate.ts:403-416 | Otherwise the first guard that denies is named, with its words if it has any |
| `ActionGateMeaning.ApprovalRefused` | src/security/friday-mutating-action-gate.ts:418-470 | Otherwise an approval of another digest is a mismatch, and one that denies is answered with its words if it has any |
| `ActionGateMeaning.ApprovalFaulty` | src/security/friday-mutating-action-gate.ts:435-517 | A bound approval is refused for its signature, its missing expiry, an expiry that cannot be compared or one that is not later than now, in this order |
| `ActionGateMeaning.OtherwiseAnswered` | src/security/friday-mutating-action-gate.ts:519-591 | In all other cases: allowed without a ticket, sent for approval, refused as used, or given a ticket, each of whose fields is what the request, the approval, the clock and the generator say |
| `ActionGateProofs.AllowExactly` | src/security/friday-mutating-action-gate.ts:383-623 | Allowed if and only if nothing denies, a presented approval is usable, and the request is ticket-free or its use key is unspent; a ticket carries the request's own digest, approval and risk |
| `ActionGateProofs.AskedForExactly` | src/security/friday-mutating-action-gate.ts:519-543 | Approval is asked for if and only if nothing denies, none is at hand and the request needs a ticket |
| `ActionGateProofs.ClaimLoosensExactly` | src/security/friday-mutating-action-gate.ts:383-623 | A claim added anywhere moves the decision towards allow if and only if it binds an approval at hand that the request without it is not bound to, and that is then usable |
| `ActionGateProofs.ClaimNeverLoosens` | src/security/friday-mutating-action-gate.ts:403-418 | Without an approval, or without raising the risk, a claim added anywhere never moves the decision towards allow |
| `ActionGateProofs.ClaimCanLoosen` | src/security/friday-mutating-action-gate.ts:421-433 | A request, an approval and an allowing claim of higher risk with which deny turns into allow |
| `ActionGateProofs.ConsumedExactly` | src/security/friday-mutating-action-gate.ts:545-577 | In every run the consumed set holds exactly the keys that bought a ticket |
| `ActionGateProofs.TicketExactlyWhenUnspent` | src/security/friday-mutating-action-gate.ts:532-590 | In every run, a request that needs a ticket and shows a usable approval gets one if and only if no earlier call spent the use key |
| `ActionGateProofs.TicketOncePerUseKey` | src/security/friday-mutating-action-gate.ts:380-577 | In every run two tickets never share a use key, nor its four parts |
| `ActionGateProofs.TicketOncePerSignedPayload` | src/security/friday-mutating-action-gate.ts:299-577 | With a signing secret, each signed payload buys at most one ticket, whatever the hex case of its signature |
| `ActionGateProofs.TicketsSpeakForBoundParts` | src/security/friday-mutating-action-gate.ts:258-577 | Two tickets with one digest speak for the same bound parts, unless two different texts share a SHA-256 value |
| `Browser.TabTextInjective` | src/browser/friday-browser-manager.ts:821-822 | Different counters give different tab ids, so tabs may be modelled by their numbers |
| `Browser.TabTextMeans` | src/browser/friday-browser-manager.ts:617 | A generated tab id is "tab-" and the decimal digits of the counter |
| `BrowserManager.Manager.Advance` | src/browser/friday-browser-manager.ts:533-878 | Every stretch between two awaits is the model's step, and the object stays within the page bound with its reservation count right and its tab ids fresh |
| `BrowserAnswers.FoundPage` | src/browser/friday-browser-manager.ts:789-806 | `getPage` answers at once if and only if the session is connected and the asked tab, or the active one when none is asked, is open and alive; it answers that tab and changes nothing |
| `BrowserAnswers.NoSession` | src/browser/friday-browser-manager.ts:778-781 | The session is reported missing if and only if it is |
| `BrowserAnswers.DeadBrowser` | src/browser/friday-browser-manager.ts:783-786 | The session of a disconnected browser is forgotten before it is closed |
| `BrowserAnswers.EvictionAnswered` | src/browser/friday-browser-manager.ts:784-787 | Once it is closed, the call fails as disconnected |
| `BrowserAnswers.GonePage` | src/browser/friday-browser-manager.ts:792-820 | A dead tab is dropped; a missing one is refused when it is not to be created, when the session has its tabs, when there is no slot or on abort, in this order, and otherwise a slot is held |
| `BrowserAnswers.ReusedAtOnce` | src/browser/friday-browser-manager.ts:593-608 | A launch gives back a session at once if and only if it is connected, in the requested mode and its active tab alive |
| `BrowserAnswers.ReusedWithFreshTab` | src/browser/friday-browser-manager.ts:609-613 | With a dead or missing active tab the session waits for a fresh one if there is a slot |
| `BrowserAnswers.NotReused` | src/browser/friday-browser-manager.ts:594-633 | A session that is disconnected or in another mode is forgotten and never reused |
| `BrowserAnswers.NewSessionAsked` | src/browser/friday-browser-manager.ts:636-640 | Without a session: too many sessions, aborted, or on to a browser of the requested mode |
| `BrowserAnswers.AfterEvictionAsked` | src/browser/friday-browser-manager.ts:596-640 | The same after the old session is closed, which for another mode is done twice |
| `BrowserAnswers.BrowserAnswered` | src/browser/friday-browser-manager.ts:642-761 | A browser that did not start or has no slot fails the launch; an adopted blank page opens the session with `tab-1` |
| `BrowserAnswers.FirstPageAnswered` | src/browser/friday-browser-manager.ts:720-761 | The first page gives its slot back and opens the session with `tab-1` active, in the mode that was reached |
| `BrowserAnswers.PageAnswered` | src/browser/friday-browser-manager.ts:816-835 | A further page gives its slot back and becomes the active tab behind the last one ever opened; its failure changes nothing else |
| `BrowserAnswers.CloseAsked` | src/browser/friday-browser-manager.ts:851-868 | Closing an unknown session answers at once; another close waits and leaves the sessions in place |
| `BrowserAnswers.CloseAnswered` | src/browser/friday-browser-manager.ts:862-877 | After a close the named session, or every one, is gone and no other |
| `BrowserManager.Manager.TotalOpenPages` | src/browser/friday-browser-manager.ts:533-535 | The sum over the sessions is the number of open tabs |
| `BrowserManager.Manager.ReservePageSlot` | src/browser/friday-browser-manager.ts:537-552 | A slot is reserved exactly when open and reserved pages leave one |
| `BrowserProofs.StepKeepsInv` | src/browser/friday-browser-manager.ts:533-878 | Every step keeps the page bound, the reservation count and the freshness of tab ids |
| `BrowserProofs.PageBoundAlways` | src/browser/friday-browser-manager.ts:533-878 | In every interleaving: open pages plus held slots stay within the limit, the counter is the number of calls holding a slot, and a new tab id was never used in its session |
| `BrowserProofs.NewTabIsFresh` | src/browser/friday-browser-manager.ts:820-824 | A new tab's id is none the session ever used, and one tab is added |
| `BrowserProofs.SequentialBounds` | src/browser/friday-browser-manager.ts:593-638 | In every run without overlap: sessions within their limit, each session's tabs within theirs, because a missing active tab leaves a free place |
| `BrowserProofs.TabLimitBroken` | src/browser/friday-browser-manager.ts:694-762 | With a tab limit below one, one launch that adopts a blank page of host Chrome exceeds it: the run is given |
| `BrowserProofs.TabLimitExactly` | src/browser/friday-browser-manager.ts:593-638 | The tab limit holds in all runs without overlap if and only if it is at least one or no session can be opened |
| `AuditLog.Writer.SerializedWrite` | src/security/friday-audit-log.ts:126-129 | A call chains behind the entry of its path and becomes the entry |
| `AuditLog.Writer.FinallyBlock` | src/security/friday-audit-log.ts:130-137 | A settled write removes the entry only if it is still its own |
| `AuditLog.Writer.AppendLine` | src/security/friday-audit-log.ts:202-205 | A successful append adds the entry's line to the end of the file, a failed one adds nothing and settles the write |
| `AuditLog.Writer.CheckSize` | src/security/friday-audit-log.ts:211-213 | The write goes on to rotate exactly when the file is larger than the limit |
| `AuditLog.Writer.RewriteFile` | src/security/friday-audit-log.ts:215-218 | The file becomes the newest lines of what was read |
| `AuditLog.Writer.BreakOff` | src/security/friday-audit-log.ts:205-218 | A file operation that fails halfway leaves part of the line behind the file, or part of the new text instead of it |
| `AuditLogText.PrintedLineIsGood` | src/security/friday-audit-log.ts:202 | A printed record has no newline and is not blank, so it is one line of the file |
| `AuditLogText.RotatedRender` | src/security/friday-audit-log.ts:215-218 | Splitting, filtering, slicing and joining a file of records gives the file of its newest records |
| `AuditLogText.RotateDamaged` | src/security/friday-audit-log.ts:215-218 | Rotating a damaged file keeps all its whole last lines, or only lines of them; it drops the damage when it keeps fewer lines than those |
| `AuditLogText.RotationLeavesFewLines` | src/security/friday-audit-log.ts:215-218 | Whatever the content, rotation with `keepLines` at least 1 leaves at most that many lines |
| `AuditLogLines.AppendWritesRecord` | src/security/friday-audit-log.ts:202-205 | An append adds one line with a line feed, and the line reads as the record |
| `AuditLogLines.ShownLinesMean` | src/security/friday-audit-log.ts:216 | Lines end at line feeds, and lines of white space only are left out |
| `AuditLogLines.RotatedMeans` | src/security/friday-audit-log.ts:215-218 | Whatever the file holds, rotation leaves its newest `keepLines` lines, or all when there are fewer |
| `AuditLogProofs.StepKeepsLocks` | src/security/friday-audit-log.ts:126-138 | Every step keeps the chain: each write waits for its predecessor on the path, and an entry names the last one |
| `AuditLogProofs.WritesNeverOverlap` | src/security/friday-audit-log.ts:124-138 | In every interleaving: at most one write per path runs, in call order, and a missing entry means that nothing on the path is unsettled |
| `AuditLogProofs.NoLockLeftBehind` | src/security/friday-audit-log.ts:130-137 | In every interleaving: once all writes are over and cleaned up, no lock entry is left |
| `AuditLogProofs.FailureNeverBlocks` | src/security/friday-audit-log.ts:126-138 | From every reachable state the unsettled writes of a path all settle by steps of their own, in order, whatever failed before and however each further operation ends |
| `AuditLogProofs.FileIsSuffixOfHistory` | src/security/friday-audit-log.ts:188-227 | In every interleaving, a file none of whose operations broke off is a suffix of its records in call order, ending with the newest; after one did, it ends with every record since, or is such a suffix again |
| `AuditLogRetention.UntouchedLog` | src/security/friday-audit-log.ts:126-227 | A step that is no append, rewrite or break on a path leaves its file and history alone |
| `AuditLogRetention.OnlyRotationLoses` | src/security/friday-audit-log.ts:211-218 | In every run a file loses text only in the rewrite, broken off or not, of a write whose file was above its `maxBytes` |
| `AuditLogRetention.RotationKeepsNewest` | src/security/friday-audit-log.ts:211-218 | A rewrite of whole lines keeps exactly the newest `keepLines` of them, or all when there are fewer |
| `AuditLogRetention.NothingLostBelowLimit` | src/security/friday-audit-log.ts:188-227 | In every run in which no operation on a path breaks off and no append leaves the file above its limit, the file is the whole history |
| `AuditLogText.BrokenRewriteExactly` | src/security/friday-audit-log.ts:215-218 | A rewrite that breaks off leaves a suffix of the history if and only if it left everything, or it stopped behind lines that are both the first and the last of those it keeps |
| `AuditLogText.BrokenAppendExactly` | src/security/friday-audit-log.ts:202-205 | An append that breaks off leaves a suffix of the history if and only if it left nothing, or its whole line where the line continues an older suffix |
| `AuditLogDamage.TearExactly` | src/security/friday-audit-log.ts:205-218 | From a state in which a file is a suffix of its history, an operation on it that breaks off after any number of units leaves one if and only if it does not show |
| `AuditLogDamage.WholeExactly` | src/security/friday-audit-log.ts:188-227 | In every interleaving and for every path, the file is a suffix of its history in all states of the run if and only if no step breaks off an operation on it so that it shows |
| `AuditLogDamage.ShowsUnlessRepeated` | src/security/friday-audit-log.ts:202-218 | Where no record repeats, a broken append does not show if and only if it left nothing, and a broken rewrite if and only if it left everything |
| `AuditLogDamage.DamagingRun` | src/security/friday-audit-log.ts:202-205 | A run in which the first append breaks off after one unit and the file is no suffix of its history |
| `AuditLogProofs.RotationHeals` | src/security/friday-audit-log.ts:210-219 | A rotation that keeps fewer lines than were written since the damage makes the file such a suffix again |
| `AuditLogProofs.CompletedIsBounded` | src/security/friday-audit-log.ts:210-227 | When a write with `keepLines` at least 1 completes without rotation failure, its file is within `maxBytes` or has at most `keepLines` lines, the newest of the history unless the file is damaged |
| `Sanitizer.SafeDirName` | src/security/friday-safe-install-dir.ts:174-205 | A sanitized name is nonempty, has safe characters only and no "..", starts with neither dot nor slash and ends in no dot, space or hyphen; exactly the canonical names come back unchanged and exactly the hollow ones are refused |
| `SafeInstallDir.ValidateInstallId` | src/security/friday-safe-install-dir.ts:87-157 | The checks, in the order of the code, give the specified verdict on the normalized id, including a throw of the sanitizer |
| `SafeInstallDirProofs.AcceptedExactly` | src/security/friday-safe-install-dir.ts:87-157 | Accepted are exactly the canonical names of allowed characters within the length limit, without a reserved segment, and scoped only where scopes are allowed |
| `SafeInstallDirMeaning.VerdictMeans` | src/security/friday-safe-install-dir.ts:87-153 | The verdict on every id, in characters and words: ten cases in order, with the shapes "name" and "@scope/name" and the device names spelled out; three of the checks never speak |
| `SafeInstallDirMeaning.NormalizeMeans` | src/security/friday-safe-install-dir.ts:67-73 | The normalized id: without white space around it, lower-cased, without null characters, with forward slashes |
| `SafeInstallDirProofs.ThrowsExactly` | src/security/friday-safe-install-dir.ts:87-157 | The validator throws if and only if the id is dots and hyphens only, within the length limit, without ".." and not "." |
| `Sanitizer.SafeNameShape` | src/security/friday-safe-install-dir.ts:174-205 | A sanitized name is nonempty, contains no "..", and starts with neither dot nor slash |
| `SanitizerMeaning.ReplacedMeans` | src/security/friday-safe-install-dir.ts:175-182 | The three rewriting passes are one: null characters vanish, backslashes become slashes, letters, digits and . _ @ / - stay, every other character becomes a hyphen |
| `SanitizerMeaning.CollapseMeans` | src/security/friday-safe-install-dir.ts:185 | Collapsing is taking out repetitions, in any order, until there are none |
| `SanitizerMeaning.CutMeans` | src/security/friday-safe-install-dir.ts:187-191 | Only dots and slashes are cut off in front and only dots, spaces and hyphens behind, and all of those |
| `SanitizerMeaning.DropMeans` | src/security/friday-safe-install-dir.ts:193-194 | The leftmost pairs of dots, which do not overlap, are taken out |
| `SanitizerMeaning.SanitizedMeans` | src/security/friday-safe-install-dir.ts:174-205 | So every name becomes what these four make of it, and is refused when nothing is left |
| `SanitizerMeaning.SpelledExactly` | src/security/friday-safe-install-dir.ts:174-205 | A name is placed under its characters as they are spelled out if and only if those make a canonical name |
| `SanitizerMeaning.OtherBecomesHyphen` | src/security/friday-safe-install-dir.ts:181-182 | Two words with any other character between them, such as "my skill", are placed under both with a hyphen |
| `Sanitizer.FixedPointsExactly` | src/security/friday-safe-install-dir.ts:174-205 | A name is its own sanitized form if and only if it is canonical: safe characters, no doubled separators, no "..", no forbidden first or last character |
| `Sanitizer.RefusedExactly` | src/security/friday-safe-install-dir.ts:196-202 | The sanitizer throws if and only if the name, its characters replaced, is dots and slashes followed by dots, spaces and hyphens |
| `SanitizerMeaning.RefusedMeans` | src/security/friday-safe-install-dir.ts:174-205 | Refused are exactly the names of null characters, dots and slashes followed by null characters, dots and characters that become hyphens |
| `Sanitizer.DropJoins` | src/security/friday-safe-install-dir.ts:193-194 | Dropping ".." puts two equal characters together if and only if an even number of dots stood between them |
| `Sanitizer.SanitizedTwice` | src/security/friday-safe-install-dir.ts:174-205 | Sanitizing a result again changes nothing if and only if, in the text that reaches the last pass, no even number of dots stands between two slashes or two hyphens |
| `Sanitizer.SanitizerIsNotIdempotent` | src/security/friday-safe-install-dir.ts:174-205 | "a/../b" becomes "a//b", which is not its own sanitized form |
| `SafeInstallDirProofs.NeverEscapes` | src/security/friday-safe-install-dir.ts:218-239 | For every current directory, base and name: the escape error never occurs, the name error occurs exactly when the sanitizer refuses, and otherwise the directory is strictly below the base |
| `SafeInstallDirMeaning.ResolveMeans` | src/security/friday-safe-install-dir.ts:220-221 | Paths resolve part by part: a segment names a child, ".." the parent, "." and the empty one stay, a leading slash starts at the root |
| `SafeInstallDirMeaning.PlacedMeans` | src/security/friday-safe-install-dir.ts:218-239 | A name that is not refused is placed at its sanitized form, one or more proper segments below the base |
| `SafeInstallDirProofs.AcceptedPath` | src/security/friday-safe-install-dir.ts:87-239 | An accepted id is placed at the base followed by its own segments |
| `SafeInstallDirProofs.AcceptedIdsAreDistinct` | src/security/friday-safe-install-dir.ts:67-239 | Two accepted ids share a directory if and only if their normalized forms are equal |
| `OutboundFormatting.TransformOutsideCode` | src/channels/friday-channel-outbound-formatting.ts:8-42 | The scanning loop ends and gives the pieces of the text with the transform applied to the plain ones |
| `OutboundFormattingProofs.SegmentsAreTickFree` | src/channels/friday-channel-outbound-formatting.ts:35-38 | The transform only ever sees nonempty segments without a backtick |
| `OutboundFormattingProofs.PiecesMakeText` | src/channels/friday-channel-outbound-formatting.ts:8-42 | The pieces of a text concatenate back to it |
| `OutboundFormattingProofs.IdentityKeepsText` | src/channels/friday-channel-outbound-formatting.ts:8-42 | A transform that changes no segment gives back the text |
| `OutboundFormattingProofs.RescanFindsSamePieces` | src/channels/friday-channel-outbound-formatting.ts:8-42 | Rescanning the output finds the input's code spans in order, with the rewritten segments between them |
| `OutboundFormattingProofs.RescanExactly` | src/channels/friday-channel-outbound-formatting.ts:8-42 | That holds for all texts if and only if the transform keeps segments nonempty and free of backticks |
| `OutboundFormattingProofs.EmptyingJoinsCode` | src/channels/friday-channel-outbound-formatting.ts:13-38 | With a transform that empties the segment "x", a text with two code spans becomes one with a single span |
| `OutboundFormattingProofs.StrongMarkersKeepSegments` | src/channels/friday-channel-outbound-formatting.ts:44-51 | The strong-marker transform is such a transform |
| `OutboundFormattingProofs.ReplaceKeepsWords` | src/channels/friday-channel-outbound-formatting.ts:44-51 | Replacing strong markers changes no character but markers |
| `OutboundFormattingProofs.OutboundKeepsCodeAndWords` | src/channels/friday-channel-outbound-formatting.ts:44-62 | For every channel kind and text: same code spans, same characters other than markers, in order |
| `OutboundMeaning.MatchMeans` | src/channels/friday-channel-outbound-formatting.ts:44-51 | Strong text ends at the first place at or behind the fourth character where a character that may touch a marker stands before two markers, else it is a single character, else there is none |
| `OutboundMeaning.ReplaceMeans` | src/channels/friday-channel-outbound-formatting.ts:44-51 | The replacement cuts the text at its leftmost strong texts, which do not overlap, and puts each out bare or between single asterisks |
| `OutboundMeaning.FirstPieceMeans` | src/channels/friday-channel-outbound-formatting.ts:13-38 | Three backticks open a block up to the next three, one opens a span up to the next one, and all else is a segment up to the next backtick |
| `OutboundMeaning.FormattedMeans` | src/channels/friday-channel-outbound-formatting.ts:8-42 | Code stays as it is and each segment is replaced by what the transform makes of it |
| `OutboundMeaning.OutboundSends` | src/channels/friday-channel-outbound-formatting.ts:44-62 | For every kind and text: "discord" sends the text; every other kind keeps code and unmarks strong text, "slack" and "whatsapp" with single asterisks |
| `InboundDebouncer.Debouncer.Receive` | src/channels/friday-channel-inbound-debouncer.ts:86-106 | Submitting is the submit step: pass-through, bypass after a flush, or buffering with a new timer |
| `InboundDebouncer.Debouncer.FlushOne` | src/channels/friday-channel-inbound-debouncer.ts:77-83 | A buffered key is forgotten with its timer and its combined group handed on; another key does nothing |
| `InboundDebouncer.Debouncer.FlushPending` | src/channels/friday-channel-inbound-debouncer.ts:108-112 | The loop flushes the buffered keys in their order |
| `InboundDebouncer.Debouncer.CancelAll` | src/channels/friday-channel-inbound-debouncer.ts:114-119 | The loop clears all timers and discards the buffers |
| `InboundDebouncerProofs.NothingLostOrReordered` | src/channels/friday-channel-inbound-debouncer.ts:51-119 | Over every run and for every key: what left the buffers, then the buffer, are the submitted messages in order; the handler saw each delivered group combined; armed timers and buffered keys are one to one |
| `InboundDebouncerMeaning.SubmitMeans` | src/channels/friday-channel-inbound-debouncer.ts:57-106 | In every reachable state: without a window, or with images or a leading "/" where those pass, a message is handed on at once behind what waits under its key; every other message waits, with a new timer |
| `InboundDebouncerMeaning.TimerMeans` | src/channels/friday-channel-inbound-debouncer.ts:77-104 | An armed timer hands on the buffer of its key as one message; another does nothing |
| `InboundDebouncerMeaning.FlushMeans` | src/channels/friday-channel-inbound-debouncer.ts:108-112 | A flush hands on every buffer, in the order in which their keys began to wait |
| `InboundDebouncerMeaning.DestroyMeans` | src/channels/friday-channel-inbound-debouncer.ts:114-119 | `destroy` hands nothing on and leaves neither a buffer nor a timer |
| `InboundDebouncerProofs.OnlyDestroyDiscards` | src/channels/friday-channel-inbound-debouncer.ts:114-119 | Without `destroy` every group that leaves a buffer is delivered |
| `InboundDebouncerProofs.FlushDeliversEverything` | src/channels/friday-channel-inbound-debouncer.ts:108-112 | Without `destroy`, a final flush leaves no buffer and no timer and has delivered every message of every key once and in order |
| `InboundDebouncerProofs.CombineCarries` | src/channels/friday-channel-inbound-debouncer.ts:63-75 | A combined message carries the joined texts and all images of its group, whatever its size |
| `InboundDebouncerMeaning.CombineMeans` | src/channels/friday-channel-inbound-debouncer.ts:63-75 | One message stays as it is; two groups combine like their combinations: texts with a line end between them, images in order, the later timezone that is not blank, all else from the second |
| `InboundDebouncerProofs.KeysClash` | src/channels/friday-channel-inbound-debouncer.ts:53-55 | Sender "a:b" in chat "c" and sender "a" in chat "b:c" have one key |
| `InboundDebouncerProofs.SharedKey` | src/channels/friday-channel-inbound-debouncer.ts:53-55 | For every message with a colon in kind, sender or chat id, a message of another author or chat with the same key |
| `InboundDebouncerProofs.KeyIsSharedExactly` | src/channels/friday-channel-inbound-debouncer.ts:53-55 | Another author or chat can share the key of a message if and only if its kind, sender or chat id has a colon |
| `InboundDebouncerProofs.KeyUnambiguous` | src/channels/friday-channel-inbound-debouncer.ts:53-55 | Where kinds and senders have no colon, equal keys mean the same kind, sender and chat, whatever chat ids contain |
| `ConfigBackups.PlacesAreDistinct` | src/config/friday-config-backup-rotation.ts:20-47 | The config path and all its backup paths are different |
| `ConfigBackups.ConfigStore.RotateBackups` | src/config/friday-config-backup-rotation.ts:4-48 | An exact shift of the places, gaps included; nothing else changes, and at every intermediate state only the oldest backup may be gone |
| `ConfigBackups.ConfigStore.WriteConfig` | src/config/friday-config-io.ts:72-96 | The config holds the new content and the backups are shifted; in every state before the last rename the config is the old version, complete |
| `ConfigBackups.LatestVersionsFirst` | src/config/friday-config-io.ts:72-96 | After any sequence of writes with two or more backups, the places hold the latest versions newest first, then what was there before |
| `ConfigBackups.FreshStartVersions` | src/config/friday-config-io.ts:72-96 | From an empty directory they hold exactly the last versions, newest first |
| `ConfigBackups.VersionsByName` | src/config/friday-config-backup-rotation.ts:20-47 | By their names: the config is the newest version, `.bak` the one before, `.bak.1` and on the older ones |
| `ChannelRegistry.Registry.StartAll` | src/channels/friday-channel-registry.ts:374-436 | For every settling order and every choice of stops that throw: the collected failures, the channels once everything is over, and the stop whose error the caller sees instead |
| `ChannelRegistry.Registry.StartAllBestEffort` | src/channels/friday-channel-registry.ts:438-479 | The same for the best-effort start, including the set of failed starts |
| `ChannelRegistry.FailuresInOrder` | src/channels/friday-channel-registry.ts:374-411 | The failures reported for a registration order are those of its first part followed by those of the rest |
| `ChannelRegistry.FailureOfOne` | src/channels/friday-channel-registry.ts:374-411 | Of a single channel a failure is reported, with its error, if and only if it was not running and its connect failed |
| `ChannelRegistry.ThrownMeans` | src/channels/friday-channel-registry.ts:409-426 | The stop that throws is the first of the started channels whose stop does |
| `ChannelRegistry.StartAllIsAllOrNothing` | src/channels/friday-channel-registry.ts:374-436 | Without a failure every channel runs; every failed channel is marked with its error; running channels are left alone; after a failure, if no stop throws, exactly the channels run that ran before |
| `ChannelRegistry.AllOrNothingExactly` | src/channels/friday-channel-registry.ts:409-426 | Every channel runs, or exactly those that ran before, if and only if no connect failed or no stop of a started channel throws |
| `ChannelRegistry.ThrownStopExample` | src/channels/friday-channel-registry.ts:413-426 | Two idle channels, one failing to connect and the other's stop throwing: one runs afterwards and one does not |
| `ChannelRegistry.BestEffortIsIndependent` | src/channels/friday-channel-registry.ts:438-479 | A channel that ran is left alone; another runs if and only if its own connect succeeded and carries its own error otherwise; the failed set follows its own outcome only |
| `Heartbeat.NormalizeHourIsModular` | src/heartbeat/friday-heartbeat-active-hours.ts:27-32 | Normalizing with the truncating remainder is the residue modulo 24, for negative hours too |
| `Heartbeat.WindowIsModularInterval` | src/heartbeat/friday-heartbeat-active-hours.ts:3-25 | For all starts and ends that differ modulo 24 the window is the modular interval; otherwise it is always open |
| `Heartbeat.Runner.RunOnce` | src/heartbeat/friday-heartbeat-runner.ts:42-140 | The new repository state and whether the agent ran, for each outcome of a tick |
| `Heartbeat.CooldownIsKept` | src/heartbeat/friday-heartbeat-runner.ts:42-140 | In every run without overlap, no execution starts before an earlier action's finish plus the cooldown |
| `Heartbeat.ExecutesExactly` | src/heartbeat/friday-heartbeat-runner.ts:42-140 | In every run without overlap, a tick executes if and only if the heartbeat is enabled, the hour is active and it starts no sooner than the cooldown after each earlier action |
| `Heartbeat.RecordedCooldown` | src/heartbeat/friday-heartbeat-runner.ts:42-140 | The recorded cooldown is that of the last completed execution, none when it was quiet |
| `Heartbeat.RecordedAction` | src/heartbeat/friday-heartbeat-runner.ts:42-140 | The recorded time of the last action is that of the last action of the run |
| `Heartbeat.ActionsAreSpread` | src/heartbeat/friday-heartbeat-runner.ts:42-140 | So k actions span at least k - 1 cooldowns |
| `LinkCache.Repository.Get` | src/link-understanding/friday-link-cache-repository.ts:24-33 | An entry that has not expired is returned; an expired one is removed |
| `LinkCache.Repository.PruneExpired` | src/link-understanding/friday-link-cache-repository.ts:39-48 | Exactly the expired entries are removed, and their number is returned |
| `LinkCache.StepMeans` | src/link-understanding/friday-link-cache-repository.ts:20-49 | A read removes the entry it finds expired, pruning all of them; an entry lives up to and including its last moment |
| `LinkCache.CacheRefinesStore` | src/link-understanding/friday-link-cache-repository.ts:20-49 | After every run on a clock that does not go back, every read answers like a map that never deletes and hides what has expired |
| `LinkCache.CachedIsFresh` | src/link-understanding/friday-link-understanding-service.ts:53-98 | Every entry answered from the cache was stored by an earlier operation at most `cacheTtlMs` ago |
| `LinkCache.Service.ProcessCandidate` | src/link-understanding/friday-link-understanding-service.ts:53-112 | A live cache entry gives a cached summary and nothing is stored; otherwise a usable page gives its summary and is stored with its expiry; otherwise none is given |
| `LinkCache.Service.ProcessText` | src/link-understanding/friday-link-understanding-service.ts:45-116 | Summaries and cache operations are those of the candidates one after the other, each with the cache the ones before left |
| `LinkCache.SummariesAreSourced` | src/link-understanding/friday-link-understanding-service.ts:45-116 | Each summary is of one candidate, in order, from its fetched page or from an entry stored for the same address within the time to live; a candidate without one could not be fetched |
| `LinkCache.FetchedIsServed` | src/link-understanding/friday-link-understanding-service.ts:57-98 | A fetched page is served from the cache to every candidate of its address until its time to live is over, whatever is read, pruned or stored for other addresses in between |
| `MediaPipeline.ApplyAttachmentPolicy` | src/media-understanding/friday-media-attachments.ts:65-116 | Eligible are the first `maxAttachmentsPerMessage` attachments that pass both tests; the others are skipped in order, each for its reason |
| `MediaPipeline.PolicyConserves` | src/media-understanding/friday-media-attachments.ts:65-116 | As a multiset, skipped and eligible together are the attachments, duplicate ids included |
| `MediaMeaning.PolicyMeans` | src/media-understanding/friday-media-attachments.ts:65-116 | Position by position: taken are those that fit, up to the limit; each other one is skipped for the limit if that was reached before it, else for its type, else for its size |
| `MediaPipeline.ChunkArray` | src/media-understanding/friday-media-providers.ts:72-78 | The chunks concatenate back to the list; each has 1 to `size` elements and only the last may be short |
| `MediaPipeline.ResolveProvider` | src/media-understanding/friday-media-providers.ts:16-23 | The first provider that supports the media type, none exactly when none does |
| `MediaMeaning.SettlementMeans` | src/media-understanding/friday-media-providers.ts:42-62 | An attachment goes to the first provider that supports its type; without one its call ends with an error that names the type |
| `MediaPipeline.RunProviderChain` | src/media-understanding/friday-media-providers.ts:28-68 | Whatever order the calls of a chunk settle in, every attachment's id has a result, the settlement of an attachment of that id with no later one a whole chunk away |
| `MediaPipeline.BuildResult` | src/media-understanding/friday-media-understanding-service.ts:80-118 | Each eligible attachment gets its decision in order, and the enrichments match the processed decisions one for one |
| `MediaPipeline.ProcessAttachments` | src/media-understanding/friday-media-understanding-service.ts:44-124 | Every attachment gets exactly one decision; enrichments match the processed decisions in order; with distinct ids each eligible attachment is decided by its own call; a missing result is never reported |

## Left out

- SHA-256, HMAC and `Date.parse` are arbitrary functions of the gate's configuration; the digests give 64 lower-case hex characters. Binding is therefore stated on the text that is hashed or signed.
- Finite numbers are modelled by their printed text; that printing is injective is taken as given. Cyclic values and invalid dates, on which the printer throws, are not modelled.
- The key `__proto__`: assigning it creates no member in the normalized object, so the model drops it, as the code does.
- The gate's evidence record, the evidence and request time inside claims, and the builder of system-intent requests.
- Reserved actions are compared after lower-casing ASCII letters only: no other letter lower-cases to a letter of those names.
- Page and browser liveness, creation failures and aborts are inputs of the browser steps; Chrome discovery, CDP, consent and origin matching, and changes to a session by its other holders are not modelled.
- BrowserProofs.SequentialBounds: claims the session and tab limits only for calls that do not overlap, because the code checks them before an await.
- Creating the log directory and file modes.
- AuditLogProofs.CompletedIsBounded: is for `keepLines` at least 1; with 0 the code keeps every line.
- A `keepLines` that is negative or no integer, and a file text that ends inside an encoded character when an operation breaks off there.
- Windows paths; install paths are POSIX paths. Lone surrogates in the text of the `string` models.
- Attachments when messages are combined, which the debouncer does not merge, and handlers that throw or submit again.
- Overlapping config writes, JSON5 printing and validation; renames and copies fail only where a file is missing.
- Overlapping registry operations, `stopAll`, the health monitor and reconnection, allowlists, and a `connect` that throws instead of returning a promise.
- Overlapping heartbeat ticks, the reading of prompt and history, the pattern that decides whether an answer asks for action, and the local hour of a time zone. Times are integers, as the ISO texts compare.
- Link detection, fetching and summarizing, and overlapping messages in the link service (the run theorems of the cache do not need that).
- The formatted text of an enrichment block and processing times.
- The CLI, daemon, authentication, speech, HTML extraction, schemas, error tables, the engine executor, the typing controller, the slow-task notifier and the policy extension chain: plumbing or members that would be easy.
