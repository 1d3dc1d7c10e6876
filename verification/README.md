# A verified model of the control plane and its design gates

The repository is a control plane for governed agent sessions together with a deterministic design and QA toolchain.
This project models the small algorithmic cores on which the rest depends, in Dafny, and proves what they promise.
`dafny verify dfyconfig.toml` checks all of it.

## What is modelled

- **Colours and tokens.** `VarResolution` is the evaluator over `var()` and `color-mix()` for any grammar, with its cycle
  guard and, beside it, the evaluator without the guard. `ColorExpression` is the grammar, `TopLevelSplit` the splitter,
  `ColorMixing` the premultiplied arithmetic of CSS Color Module Level 5 and the contrast ratio of WCAG 2.1 over the
  reals, `ColorPrinting` the printed form of colour trees. `TokenCss` and `TokenCompilation` are the token compiler,
  `TokenRules` what its filters and names come to on characters, `RootVars` the reader of what it prints.
- **Governed dispatch.** `DispatchGates` is the gate pipeline and the packet hash, `DispatchProtocol` the steps of any
  number of interleaved dispatches against a token gateway, with calls that fault after they have changed it.
  `DispatchSafety` is what every run keeps, `DispatchAccounting` what the gateway holds in every run over one gateway
  object, `DispatchSettlement` which settlements it refuses, `GatewayFile` that its state file can always be read back,
  `DispatchLimits` what happens over several objects, and runs in which reservations are shared, kept and revived.
  `DispatchRules` says in numbers and fields what is asked of the gateway, admitted, accepted and remembered.
  `DispatchHandoff` is the code itself over a mutable gateway and journal: each stretch of it that runs without
  interruption is shown to continue any run of the machine.
- **Runs and promotion.** `RunRevision` is the two-file revision protocol with a death possible around every write,
  `RunHistory` what every operation on the two files keeps, `RunRules` when each goes through and what it then changes,
  `QueueRoom` how the approval queue comes to be full, `Promotion` and `PromotionSafety` the requests that take a run
  from dev to prod, `PromotionRules` when each of them goes through, on the fields of packets and runs,
  `ControlPlaneRuns` the state directory the handlers write. `ExecutionProfile` names what they share.
- **Poll loop.** `PollLoop` is the supervisor loop as a state machine of coroutines, timers and a stop, `PollRuntime` the
  closure with its variables.
- **Verification scope.** `Porcelain` reads git's NUL-separated porcelain format, `VerifyScope` chooses what to verify.
- **Design gates.** `HitTest` resolves a point to an element, `PointCloud` and `CloudHost` are the point-cloud gate,
  `Ranking` the scorer's ranking and allow-list gate, `FigmaFlatten` and `EvidenceScan` two capped traversals.
- **Telemetry and budgets.** `Grouping`, `Telemetry` and `TelemetryDecisions` are the summaries, `TokenAllocation` the
  split of a brainstorm's tokens.
- `Text` holds the string operations the code uses and `Sorting` a stable sort and the order of strings.

Code that changes things step by step is modelled by methods over classes or local variables, each proved equal to a
function of the state it started from; the theorems are about those functions. The small predicates and tables those
theorems rest on are each restated in plain terms, on fields, characters and numbers, by a lemma of their own.

## Where the code does less than one would expect

Each of these has a lemma with the exact condition under which the expected property does hold, and a concrete case.

- A revision is stored before its approval, and is not checked for whether the approval queue will take it. When the
  queue has 512 records, or its file would grow past 1 MiB, every retry is refused and the run stays in draft with no
  approval (`RunRevision.StuckExactly`, `QueueRoom.FullBeforeItsNumber`). The queue also refuses a model name that is
  there but empty; the routes never let one through, since it is in no catalogue and in no stored snapshot, so this part
  of the condition concerns only callers that come to the revision past the routes.
- Reserving is idempotent per handoff, so two dispatches of one handoff can share a reservation, and one of them closes
  what the other still uses: exactly when one is granted while another of the handoff holds an unclosed one
  (`DispatchAccounting.HoldingsApartExactly`, `DispatchLimits.OneHandoffIsShared`). The gateway tells handoffs apart by
  the first 128 characters of their ids, with line breaks and tabs blanked.
- A settlement is refused when the worker put out more than the 8000 tokens every dispatch reserves, and the reservation
  then stays active. The gateway changes its memory before it writes its file, and does not change it back when the
  write fails, so a reserve call that fails so leaves a reservation that its caller never hears of. What a process left
  in the file when it died stays too, until a dispatch of the same handoff resumes it
  (`DispatchSettlement.NothingLeaksExactly`, `DispatchLimits.RefusedSettlementLeaks`,
  `DispatchLimits.FaultyReserveLeaks`). A settlement or release whose write fails has closed its reservation all the
  same.
- Dispatches that each open their own gateway over one state file undo each other's writes: a close puts back what was
  active when its dispatch reserved, less its own (`DispatchLimits.PrivateCloseExactly`,
  `DispatchLimits.PrivateGatewaysRevive`).
- The telemetry counters are kept on plain objects, so records under a key that every object inherits, such as
  `constructor`, are counted in the total and in no bucket (`Telemetry.BucketConserves`,
  `Telemetry.InheritedVendorUncounted`).
- Under enforcement an allowed pattern past the cut that repeats the id of a selected one is in neither list
  (`Ranking.EnforcedReportConserves`, `Ranking.RepeatedIdIsLost`).
- The containment test for evidence paths looks at the first two characters of the relative path, so exactly the names
  in the root that begin with two dots are reported as escapes, and exactly the records at or under them are missed
  (`EvidenceScan.EscapesExactly`, `EvidenceScan.WalkCompleteExactly`, `EvidenceScan.TwoDotsAtTheTop`).

## What is taken from outside

- The digest of a packet and the file hashes are injective functions given as parameters.
- The 2.4 power in relative luminance is any map of the unit interval into itself.
- Clocks, fresh ids, the project registry, route availability, the decision mesh and worker results are
  parameters or nondeterministic answers; new run ids are ids no run has.
- Which closed reservations are the oldest, and where a write to the gateway's file fails, are free.
- Decoding of character references in a page is an arbitrary function on texts.
- Redaction of promotion texts is an arbitrary function; `Date.parse` is an arbitrary partial function.
- The formatting of degree angles (`map-tokens.ts:281-288,371-391`) is a parameter whose results can stand in a
  declaration.

## Model

| member | source | states |
|---|---|---|
| VarResolution.CycleGuardExact | product-design-os/renderer/wcag-contrast.ts:231-289 | For every grammar, variable map and text: the guarded evaluator gives a colour or an error other than a cycle exactly when the evaluator without the guard gives it in some number of steps, and reports a cycle exactly when the unguarded one never ends |
| VarResolution.GuardedIsReached | product-design-os/renderer/wcag-contrast.ts:231-289 | Whatever the guarded evaluator returns, short of a cycle, the unguarded one reaches, whichever names have been visited |
| VarResolution.ReachedIsGuarded | product-design-os/renderer/wcag-contrast.ts:249-271 | A result the unguarded evaluator reaches is never cut off by the guard, by a least-number-of-steps argument over the visited names |
| VarResolution.MoreSteps | product-design-os/renderer/wcag-contrast.ts:231-289 | A result once reached is not changed by allowing more steps |
| VarResolution.ResolvedInGamut | product-design-os/renderer/wcag-contrast.ts:231-315 | Every colour that evaluation gives has channels in 0..255 and alpha in 0..1, for all maps, cyclic ones included |
| ColorPrinting.ResolvePrinted | product-design-os/renderer/wcag-contrast.ts:231-354 | Printing any colour tree and evaluating the text against printed variables is evaluating the tree, errors and cycles included |
| ColorPrinting.ReadPrinted | product-design-os/renderer/wcag-contrast.ts:231-294 | One level of reading undoes one level of printing: the form read from printed text is the outermost constructor with its parts printed |
| ColorPrinting.PrintBalanced | product-design-os/renderer/wcag-contrast.ts:335-354 | Printed text is balanced: read at any depth it returns to that depth and no comma in it is at the depth it started from |
| TopLevelSplit.SplitTopLevel | product-design-os/renderer/wcag-contrast.ts:335-354 | The loop over depth, current text and parts computes the top-level split, trimmed |
| TopLevelSplit.SplitTopLevelExact | product-design-os/renderer/wcag-contrast.ts:335-354 | The split is the one and only way to cut the text at separators of depth zero: the parts join back to the text, none holds a separator at depth zero, and no other list has both properties |
| TopLevelSplit.SplitAtSeparator | product-design-os/renderer/wcag-contrast.ts:335-354 | Balanced text followed by a separator is cut exactly there |
| ColorPrinting.ComponentRead | product-design-os/renderer/wcag-contrast.ts:326-333 | A component written as a colour and a percentage is read as that colour and that percentage, and one written without a percentage as the colour alone |
| ColorExpression.NatReads | product-design-os/renderer/wcag-contrast.ts:326-333 | Every natural number printed in decimal digits is read back as itself |
| ColorExpression.DecimalReads | product-design-os/renderer/wcag-contrast.ts:326-333 | Every number printed with decimal places is read back as itself |
| ColorExpression.HexColorReads | product-design-os/renderer/wcag-contrast.ts:154-173 | Six hexadecimal digits in either case are the three channels they print, and three digits are read as those digits doubled |
| ColorPrinting.ReadVar | product-design-os/renderer/wcag-contrast.ts:249-271 | A printed `var()` is read as the name without its dashes and the fallback as printed, or none |
| ColorPrinting.ReadMix | product-design-os/renderer/wcag-contrast.ts:273-294 | A printed `color-mix()` is read as its two components in order, each with the percentage it was printed with |
| ColorExpression.FlattenedIs | product-design-os/renderer/wcag-contrast.ts:175-191 | An opaque colour is itself over any backdrop and over none; a translucent one is mixed with the backdrop in proportion to its alpha, and refused without one |
| ColorExpression.ResolveColorInGamut | product-design-os/renderer/wcag-contrast.ts:175-191 | Flattening the evaluated colour over a backdrop stays in range, or the translucent colour is refused |
| ColorExpression.ContrastOfComposites | product-design-os/renderer/wcag-contrast.ts:193-210 | What is compared is the background as it shows over the page and the foreground as it shows over that, whatever their translucency; between opaque colours the ratio is that of the two, in either order and over any page, and a fully transparent background leaves the page |
| ColorMixing.MixInGamut | product-design-os/renderer/wcag-contrast.ts:296-315 | Mixing two colours in range, with any percentages that are not negative, gives a colour in range |
| ColorMixing.MixSymmetric | product-design-os/renderer/wcag-contrast.ts:296-315 | Swapping the two components, percentages with them, gives the same colour |
| ColorMixing.MixIs | product-design-os/renderer/wcag-contrast.ts:296-315 | For any two colours and any percentages, in plain arithmetic: with `p1` and `p2` what each component counts for (its own percentage, what the other leaves, or one half each), every channel is the mean of the two weighted by percentage and alpha, and alpha is the weighted one, scaled down when the percentages fall short of a hundred |
| ColorMixing.OpaqueProportion | product-design-os/renderer/wcag-contrast.ts:301-315 | Between opaque colours N percent to the other's remainder gives (N x + (100 - N) y) / 100 in each channel, alpha one; no percentages give the mean |
| ColorMixing.GreyMix | product-design-os/renderer/wcag-contrast.ts:301-315 | `color-mix(in srgb, #000000 90%, #ffffff)` is 25.5 in each channel |
| ColorMixing.FlattenMix | product-design-os/renderer/wcag-contrast.ts:296-324 | Premultiplied mixing commutes with flattening over a backdrop: mix then flatten is flatten both then mix |
| ColorMixing.TransparentMixIsBackdropMix | product-design-os/renderer/wcag-contrast.ts:296-324 | An opaque colour mixed N percent with transparent and flattened over a backdrop is that colour mixed N percent with the backdrop |
| ColorMixing.CompositeInGamut | product-design-os/renderer/wcag-contrast.ts:317-324 | Compositing over an opaque backdrop stays in range |
| ColorMixing.ContrastRatioRange | product-design-os/renderer/wcag-contrast.ts:137-152 | The contrast ratio of WCAG 2.1 is symmetric, lies in 1..21 and is 1 exactly for equal luminance, whatever the 2.4 power does inside the unit interval |
| ColorMixing.LuminanceOfPure | product-design-os/renderer/wcag-contrast.ts:145-152 | The luminance of pure red, green and blue is 0.2126, 0.7152 and 0.0722 of the power's value at one, dark colours are weighted sums over 12.92, and the other piece of the curve is the power of (c + 0.055) / 1.055 |
| ColorMixing.ContrastOfPure | product-design-os/renderer/wcag-contrast.ts:137-152 | Pure red on black is 5.252, and black on white 21, for a power that fixes one |
| RootVars.ExtractRootCssVars | product-design-os/renderer/wcag-contrast.ts:109-127 | The matching loop fills the map with the last value of each declaration in the first `:root` block, or reports that there is none |
| RootVars.PrintThenRead | product-design-os/renderer/wcag-contrast.ts:109-127 | A printed `:root` block in a document with no earlier one is read back as exactly the printed declarations, in order |
| RootVars.AssignedDistinct | product-design-os/renderer/wcag-contrast.ts:109-127 | With distinct names the map read back holds each printed pair and nothing else |
| TokenCompilation.MapTokensToCss | product-design-os/renderer/map-tokens.ts:47-117 | The compiler's loops over files give the compiled block, or all of the issues when there are any |
| TokenCompilation.CompileFile | product-design-os/renderer/map-tokens.ts:68-110 | One file: base tokens, overrides, sorted declarations and, for the style file, the derived ones |
| TokenCompilation.OverrideTokens | product-design-os/renderer/map-tokens.ts:77-101 | The override loop, with its two kinds of issue, is the fold of single overrides over the table |
| TokenCompilation.NormalizeFlattenedTokens | product-design-os/renderer/map-tokens.ts:191-214 | The base-token loop keeps the safe values under their keys and reports the others |
| TokenCompilation.CompiledReadsBack | product-design-os/renderer/map-tokens.ts:47-117 | What the compiler prints, the contrast gate reads back as exactly the printed name and value pairs, for every base and override set that compiles to distinct readable names |
| TokenCompilation.TokenReadsBack | product-design-os/renderer/map-tokens.ts:47-117 | Every token of every file reads back under its printed name as its effective value: the last override with the same kebab-case name, else the file's own; colours read back as hexadecimal colours |
| TokenCompilation.OverrideNamesToken | product-design-os/renderer/map-tokens.ts:255-262 | An override name finds the one token with the same kebab-case name, and none exactly when there is no such token |
| TokenCompilation.OverriddenValue | product-design-os/renderer/map-tokens.ts:77-101 | After all overrides a token has the value of the last override that names it, and other tokens keep theirs |
| TokenCompilation.OverridesKeepKeys | product-design-os/renderer/map-tokens.ts:77-101 | Overriding neither adds nor drops a token |
| TokenCompilation.FileTableSafe | product-design-os/renderer/map-tokens.ts:216-231 | Every value in a compiled table passed the filter of its file, whether it came from the file or an override |
| TokenCompilation.StyleDerivedSafe | product-design-os/renderer/map-tokens.ts:264-331 | Every derived style declaration carries a value that a declaration can hold unchanged |
| TokenCompilation.KebabIdempotent | product-design-os/renderer/map-tokens.ts:415-420 | Kebab case is a fixed point of itself, so a name found under its own kebab case is found once |
| TokenCompilation.ColorTokenResolves | product-design-os/renderer/wcag-contrast.ts:249-271 | A colour token referred to by name through the printed block evaluates to the colour it declares |
| TokenCss.NormalizeCssStable | product-design-os/renderer/map-tokens.ts:333-369 | A text the filter lets through comes out trimmed, otherwise unchanged, within 240 characters of the plain kind, with no denied character, comment mark or word in it and calls to allowed functions only, and is let through again as it came out |
| TokenCss.NormalizeValue | product-design-os/renderer/map-tokens.ts:216-231 | Whatever passes a file's filter can stand in a declaration, and in the colour file it is a hexadecimal colour |
| TokenRules.TextPasses | product-design-os/renderer/map-tokens.ts:333-369 | A text passes exactly when, trimmed, it has 1 to 240 characters, all of the kinds allowed, nothing denied in it and no call of a function that is not allowed |
| TokenRules.DeniedExactly | product-design-os/renderer/map-tokens.ts:347-353 | What is denied, at character positions: six characters, the two comment marks, `@import` as a word, and five words followed by white space and their mark, in any case |
| TokenRules.CallsAre | product-design-os/renderer/map-tokens.ts:359-366 | How calls are found: a whole name at a word boundary, white space, a parenthesis; it has to be one of five, and what is inside is looked at in turn |
| TokenRules.CharactersAre | product-design-os/renderer/map-tokens.ts:347-366 | Which characters values, names and words are made of |
| TokenRules.ChoicesAre | product-design-os/renderer/map-tokens.ts:233-253 | The ten pairs of style key and choice that pass, and no others |
| TokenRules.KebabIs | product-design-os/renderer/map-tokens.ts:415-420 | Kebab case, a character at a time: a dash between a small letter or digit and a capital, underscores to dashes, capitals to small letters |
| TokenRules.CssNameIs | product-design-os/renderer/map-tokens.ts:401-405 | A token's printed name is its kebab-case key, after the file's prefix unless it begins with that |
| TokenRules.FileOrderIs | product-design-os/renderer/map-tokens.ts:119-136 | Files go in the one fixed order of seven, the others after them by name |
| TokenRules.LeavesInTable | product-design-os/renderer/map-tokens.ts:146-160 | Every leaf of a token tree is in the table under its keys joined by dashes, and nothing else is |
| TokenRules.DerivedIs | product-design-os/renderer/map-tokens.ts:264-331 | The six derived declarations, value by value for every choice, and what counts as chosen where nothing is |
| TokenRules.GradientIs | product-design-os/renderer/map-tokens.ts:320-331 | The gradient in its parts, with its two mixes |
| TokenRules.OverriddenByLast | product-design-os/renderer/map-tokens.ts:162-181 | What overrides a token of a file is what the last entry says that names the file, with or without `.json` in any case, and has the token |
| TokenRules.UnknownFilesAre | product-design-os/renderer/map-tokens.ts:53-60 | A file an override names is reported unknown exactly when there is no file of that name |
| DispatchGates.PacketHashExact | src/governed-core/dispatch.ts:144-155 | With an injective digest two packets hash alike exactly when the five hashed fields are equal as multisets and the routing modes are equal |
| DispatchGates.GatePassesExactly | src/governed-core/dispatch.ts:185-239 | In plain terms: the handoff is for the live packet and mode; a viable tier; at least one required check; under a mode only its vendors, OpenRouter modes and model names; a Build with its packet named and hashed and, on Codex, provenance that is a non-empty list of refs that each hold a non-blank character, or an owner override with such a reason. Otherwise the first of these that fails names the refusal |
| DispatchGates.LanesAllowed | src/data/delivery-system/routingModes.ts:128-200 | For each of the four modes the vendors, OpenRouter modes and model names it lets work |
| DispatchGates.PrepAsked | src/data/delivery-system/routingModes.ts:93-110 | Provenance satisfies exactly when it is such a list, or an override with such a reason; absent provenance does not |
| DispatchRules.RequestIs | src/governed-core/dispatch.ts:264-275 | What a dispatch asks the gateway for: field by field from the handoff, 8000 tokens of output |
| DispatchRules.FieldIs | src/data/delivery-system/tokenGateway.ts:410-414 | A field of a request keeps its first 128 characters, line breaks and tabs blanked, and is absent when empty |
| DispatchRules.AdmitsExactly | src/data/delivery-system/tokenGateway.ts:152-191 | A reservation is admitted exactly below 512 active ones, with room for its new counters among 1536, within both caps and under the three budgets, given what the three counters stand at |
| DispatchRules.AcceptsExactly | src/data/delivery-system/tokenGateway.ts:262-279 | Usage is accepted exactly within the caps, within the reserved total, and where it keeps the three budgets in place of the reservation |
| DispatchRules.PrunesExactly | src/data/delivery-system/tokenGateway.ts:355-358 | All closed reservations are remembered up to 1024, and 1024 of them as they were above that |
| DispatchRules.ReportedExactly | src/governed-core/dispatch.ts:295-330 | A worker is reported completed exactly when it exited with zero and without an error |
| DispatchRules.WrittenExactly | src/data/delivery-system/tokenGateway.ts:345-353 | What the next dispatch finds: the object, or over a file what was written, which is nothing when the write failed for good |
| DispatchProtocol.DispatchInvKept | src/governed-core/dispatch.ts:173-330 | Every step of a dispatch keeps the closed form of its trace, its gate evidence and its reservation |
| DispatchProtocol.TracesInRun | src/governed-core/dispatch.ts:173-330 | In every state of every interleaving, each dispatch's trace is the one its phase determines |
| DispatchSafety.ReadTrace | src/governed-core/dispatch.ts:241-330 | What the closed form of a trace says: worker starts, grants, closings, gateway calls and efficiency statuses |
| DispatchSafety.RunSafety | src/governed-core/dispatch.ts:173-330 | In every run: the worker starts at most once and only past the gates; each grant is closed exactly once by the end; a caller-owned dispatch never calls the gateway; the efficiency trace is one of the four allowed |
| DispatchSafety.WorkerRunsIssuedPacket | src/governed-core/dispatch.ts:185-192 | A worker only ever starts on a packet equal, field by field, to the one the handoff was issued for |
| DispatchAccounting.GrantSharesExactly | src/data/delivery-system/tokenGateway.ts:152-191 | What a dispatch is granted is held by another exactly when another of the same handoff, as the gateway compares handoffs, holds a reservation that nobody has closed |
| DispatchAccounting.StepKeepsGateway | src/data/delivery-system/tokenGateway.ts:152-305 | Over one gateway object each step, faults included, keeps what is active equal to what is held, or was left by a faulting reserve call, and closed by nobody; and it keeps holdings apart exactly when it shares no grant |
| DispatchAccounting.HoldingsApartExactly | src/governed-core/dispatch.ts:260-316 | In every run over one gateway object no two dispatches have held one reservation exactly when no grant so far went to a dispatch while another of its handoff held an unclosed one |
| DispatchAccounting.DistinctHandoffsNeverShare | src/data/delivery-system/tokenGateway.ts:152-160 | Handoffs the gateway can tell apart never share a reservation |
| DispatchAccounting.WhatStaysReserved | src/governed-core/dispatch.ts:260-316 | When all dispatches over one gateway object have finished, what is still active is exactly what every holder was refused to settle, and what was there before or was left by a faulting reserve call and nobody was granted since |
| DispatchSettlement.OutputAloneDecides | src/data/delivery-system/tokenGateway.ts:262-279 | While usage is within the budgets no budget or cap refuses the settlement of a reservation: it is accepted exactly when the output is no more than the output reserved |
| DispatchSettlement.BoundsKept | src/data/delivery-system/tokenGateway.ts:152-305 | No call of a dispatch takes a gateway within its budgets out of them, faults included |
| DispatchSettlement.EndsAsItRan | src/governed-core/dispatch.ts:288-316 | A dispatch whose reservation is active closes it exactly when its worker threw or put out no more than 8000 tokens |
| DispatchSettlement.NothingLeaksExactly | src/governed-core/dispatch.ts:260-316 | Over one gateway object within its budgets nothing stays reserved exactly when every reservation held had a holder whose worker threw or put out no more than was reserved, and every one there before or left by a faulting reserve call was granted to somebody |
| GatewayFile.FileStaysReadable | src/data/delivery-system/tokenGateway.ts:432-469 | From a file the loader accepts, every run, over one gateway object or one to each dispatch, faults included, leaves a file it accepts: one reservation to a handoff, none both active and closed, sizes within the limits, usage coherent |
| GatewayFile.CallKeepsReadable | src/data/delivery-system/tokenGateway.ts:152-305 | No call leaves a gateway that could not be read back |
| GatewayFile.TotalsMove | src/data/delivery-system/tokenGateway.ts:323-328 | Usage is counted once by provider, once by model and once by session, so the three totals move together as long as no counter would fall below zero |
| GatewayFile.CloseCoherent | src/data/delivery-system/tokenGateway.ts:555-580 | Closing keeps the counters positive, equal in total and at least what is held; since they cover what is held, none is ever cut off at zero |
| DispatchLimits.FaultyReserveLeaks | src/data/delivery-system/tokenGateway.ts:186-188 | A run in which a reserve call faults after it has reserved, and everything finishes with the reservation active |
| DispatchLimits.RefusedSettlementLeaks | src/data/delivery-system/tokenGateway.ts:262-289 | A run whose worker puts out 8001 tokens, one more than was reserved: the settlement is refused and everything finishes with the reservation active |
| DispatchLimits.OneHandoffIsShared | src/data/delivery-system/tokenGateway.ts:152-160 | A run in which two dispatches of one handoff hold one reservation, and the first closes it while the second has yet to start |
| DispatchLimits.PrivateCloseExactly | src/governed-core/dispatch.ts:260-263 | Where each dispatch opens a gateway of its own, a close writes the active reservations back as they were when it reserved, less its own; so what it revives, drops and leaves is known exactly, and it is right exactly when nothing else changed in between |
| DispatchLimits.PrivateGatewaysRevive | src/governed-core/dispatch.ts:260-263 | A run of two handoffs with a gateway object each and both settlements accepted, at whose end the first reservation is active again |
| DispatchHandoff.TokenGateway.Reserve | src/data/delivery-system/tokenGateway.ts:152-191 | Reserving answers the active reservation of the same handoff and request, refuses a different request or one over a cap, a budget or the number of reservations or counters and changes nothing, or adds a new one, which stays when the write fails |
| DispatchHandoff.TokenGateway.Settle | src/data/delivery-system/tokenGateway.ts:262-289 | Settling an active reservation is refused exactly when the usage is over a cap, over what was reserved or over a budget, and otherwise closes it, even when the write then fails; it is accepted again for one remembered as settled, and otherwise refused with nothing changed |
| DispatchHandoff.TokenGateway.Release | src/data/delivery-system/tokenGateway.ts:291-305 | Releasing closes an active reservation, even when the write then fails; of others it accepts those remembered as closed and changes nothing |
| DispatchHandoff.TokenGateway.PruneTerminal | src/data/delivery-system/tokenGateway.ts:355-358 | No more than 1024 closed reservations are remembered: all of them while they are that few, and none changed |
| DispatchHandoff.StartDispatch | src/governed-core/dispatch.ts:173-286 | The code up to the wait for the worker continues any run of dispatches over the gateway object by protocol steps of this dispatch alone, leaves the object as that run does, and records exactly what those steps record |
| DispatchHandoff.ReserveAndLaunch | src/governed-core/dispatch.ts:241-286 | The same of the part past the gates: the caller's reservation, a refusal, a fault, or a grant and the start of the worker |
| DispatchHandoff.AfterWorkerThrew | src/governed-core/dispatch.ts:289-294 | The catch branch continues the run by recording the failure and releasing what is held |
| DispatchHandoff.AfterWorkerReturned | src/governed-core/dispatch.ts:295-330 | The code after the worker returned continues the run by settling what is held and one of the two ways to report it |
| RunRevision.RetriedRevisionIsOneCall | scripts/control-plane-runs.ts:156-171 | Any number of attempts at one revision, dying before, between or after the two writes or failing otherwise, followed by one that completes, leave the store and the answer of one uninterrupted call |
| RunRevision.CompletedRevisionIsIdempotent | scripts/control-plane-runs.ts:156-171 | After a completed revision, repeats change nothing and answer the same run |
| RunRevision.RetriesApproveOnce | scripts/control-plane-runs.ts:162-169 | Retries over a stored draft add one approval in all, with the clock reading of one of them |
| RunRevision.RepeatChangesNothing | scripts/control-plane-runs.ts:163-170 | With draft and approval both stored every repeat leaves both files alone |
| RunRevision.StuckExactly | scripts/control-plane-runs.ts:166-169 | When a retry can complete a draft with no approval: exactly when the queue has fewer than 512 records, its file with the approval stays within 1 MiB as printed, and the model is not an empty name; otherwise every retry is refused and changes nothing |
| QueueRoom.FullBeforeItsNumber | src/data/delivery-system/approvalQueue.ts:134-140 | From an empty state directory, by 499 submissions by hand and the creation of one run, all accepted: a revision that passes every check and names no model is stored as a draft, refused by a queue of 500 records, and refused on every retry |
| RunRevision.DraftFoundAgain | scripts/control-plane-runs.ts:388-390 | The stored draft of an attempt is recognised by every attempt with the same request, whatever token estimate it restates |
| RunRevision.DraftStepLeaves | src/data/delivery-system/runStore.ts:363-377 | A first half that went through leaves a draft of the next revision with the input asked for, and the queue untouched |
| RunRevision.FindReplaced | src/data/delivery-system/runStore.ts:315-321 | Replacing a run changes what is found under its own id and under no other |
| RunRevision.InputAccepted | src/data/delivery-system/runStore.ts:141-190 | An input is accepted exactly when its project is enabled, the prompt under 9000 tokens and reviewed above 1000, the estimate covers prompt and 8192, the provider has the effort, prod names a packet and dev none, and model and artifacts fit; otherwise the first failing check names the error |
| RunRevision.ApprovalSays | src/data/delivery-system/approvalQueue.ts:57-93 | Each field of an approval against its draft: run and revision, vendor, model, the first 500 characters of the prompt, the three token counts, the review; pending, and nothing decided |
| RunRevision.DraftSays | src/data/delivery-system/runStore.ts:363-377 | Each field of a draft against its input, the budget worked out from the prompt |
| RunRevision.TokensOfOneMore | src/data/delivery-system/runPromptPolicy.ts:8-10 | A prompt's tokens one character at a time: the length of its UTF-8 form |
| RunRules.CreatedExactly | src/data/delivery-system/runOrchestrator.ts:86-94 | A run is created exactly when its project is enabled, its route available, its input accepted, there are fewer than 256 runs and the queue takes the approval; then exactly the run and its approval are added |
| RunRules.RevisedExactly | src/data/delivery-system/runStore.ts:363-377 | A run is revised exactly in draft, at the revision named, with fewer than twenty of them, an accepted input and a profile; then exactly one draft is added |
| RunRules.TakenExactly | src/data/delivery-system/approvalQueue.ts:134-140 | The queue takes an approval exactly below 512 records, with its file within 1 MiB and a model that is absent or not empty |
| RunRules.SameDraftIs | scripts/control-plane-runs.ts:388-390 | A stored draft is recognised exactly when each field but the estimate is what the request asks |
| RunRules.MovedExactly | src/data/delivery-system/runStore.ts:387-391 | A status move goes through exactly when it is one the life of a run has, and changes status and time alone |
| RunHistory.MovesAre | src/data/delivery-system/runStore.ts:126-129 | The moves there are: draft, approved, queued, running, completed or failed, and cancelled from anywhere before the end |
| RunRules.DecidedExactly | src/data/delivery-system/approvalQueue.ts:95-108 | An approval is decided once, and changes in its decision and size alone |
| RunRules.QueueFrame | src/data/delivery-system/approvalQueue.ts:134-140 | The bytes of the queue file around its records: none, one, and what one more adds |
| RunRules.FrameBytes | src/data/delivery-system/approvalQueue.ts:57-93 | The bytes of a record, line by line as printed, for empty texts |
| RunHistory.ReviseKeeps | scripts/control-plane-runs.ts:156-171 | A revision in the run's own lane, wherever it dies, keeps both files well formed and only adds to them |
| RunHistory.PrepareKeeps | src/data/delivery-system/runOrchestrator.ts:86-94 | Creating a run, wherever it dies, keeps both files well formed and only adds to them |
| RunHistory.MoveKeeps | src/data/delivery-system/runStore.ts:379-391 | Status moves keep every draft and every approval |
| RunHistory.DecideKeeps | src/data/delivery-system/approvalQueue.ts:95-108 | Deciding an approval changes its decision and nothing it describes |
| PromotionSafety.PromotionSafety | scripts/control-plane-runs.ts:96-114 | In every sequence of requests: one prod run to a packet; no run changes profile or packet or loses a revision; every prod run's packet is owner-approved and verified; one approval to a revision, saying what that revision says; no approval lost or changed but for its decision |
| PromotionSafety.UnlockedProfileReadIsSafe | scripts/control-plane-runs.ts:103-113 | When a revision acts, the run still has the profile the request read without the lock; and a prod run is then only revised under its own packet, approved, signed by the owner, published by nobody, verified by the reference given and carried by no other run |
| PromotionRules.ProdCreatedExactly | scripts/control-plane-runs.ts:248-268 | A prod draft reaches creation exactly when the packet of the id given is approved, names the owner, has no prod run, records the very reference given, and no run carries it; otherwise the store is unchanged and the reply is the stated refusal |
| PromotionRules.ProdRevisedExactly | scripts/control-plane-runs.ts:270-294 | The same of revising a prod run under its own packet, which no other run may carry |
| PromotionRules.CarriedExactly | scripts/control-plane-runs.ts:255-294 | The gate's lookups say that of the packet's own fields |
| PromotionRules.RevisionRouted | scripts/control-plane-runs.ts:103-113 | The guarded revision is taken as soon as the run read or the input is prod |
| PromotionRules.BuiltExactly | src/data/delivery-system/promotionPacket.ts:89-130 | A packet is built exactly from a completed dev run, while there is room and its id is new, with nothing on it |
| PromotionRules.ApprovedExactly | src/data/delivery-system/promotionPacket.ts:132-149 | Exactly a pending packet is approved, by a reference that fits; the owner signs and nothing else changes |
| PromotionRules.RejectedExactly | src/data/delivery-system/promotionPacket.ts:151-157 | Exactly a pending packet is rejected; its status alone changes |
| PromotionRules.VerifiedExactly | src/data/delivery-system/promotionPacket.ts:159-175 | Exactly an approved packet is verified, once: the same reference again changes nothing and another is refused |
| PromotionRules.PublishedExactly | src/data/delivery-system/promotionPacket.ts:177-198 | Exactly an approved packet is published, by a completed prod run of its own named in the evidence and the verification it records |
| PromotionRules.RolledBackExactly | src/data/delivery-system/promotionPacket.ts:200-206 | Exactly a published packet is rolled back; its status alone changes |
| PromotionSafety.PublishedNamesItsRun | scripts/control-plane-runs.ts:296-303 | A packet that names a prod run names the only run drafted for it, and that run has completed |
| PromotionSafety.PathSafe | scripts/control-plane-runs.ts:54-148 | Every state of every sequence of requests satisfies the invariant, and every later state is progress on every earlier one |
| PromotionSafety.StepSafe | scripts/control-plane-runs.ts:54-148 | Each request keeps the invariant and only makes progress |
| PromotionSafety.CreateSafe | scripts/control-plane-runs.ts:248-268 | Creating a run, dev or prod, keeps one run to a packet and links a prod run only to a backed packet |
| PromotionSafety.ReviseSafe | scripts/control-plane-runs.ts:103-113 | Revising on the strength of a profile read earlier keeps the invariant on both routes |
| PromotionSafety.PublishSafe | src/data/delivery-system/promotionPacket.ts:177-198 | Publishing on the strength of a completed run read earlier keeps the invariant |
| PromotionSafety.SeenLane | scripts/control-plane-runs.ts:108-110 | A run record read earlier is what the run was: same profile, same packet, an initial part of its revisions |
| ControlPlaneRuns.StateDirectory.ReviseDraft | src/data/delivery-system/runStore.ts:363-377 | The checks in order, then one write; any refusal changes nothing |
| ControlPlaneRuns.StateDirectory.WriteApprovals | src/data/delivery-system/approvalQueue.ts:134-140 | The queue grows by the approval, or stays as it is when the record is refused, is one too many or makes the file too large, or when the call dies before the write |
| ControlPlaneRuns.StateDirectory.ReviseWithApproval | scripts/control-plane-runs.ts:156-171 | The method with its two writes does to the directory what the specified call does |
| ControlPlaneRuns.StateDirectory.Prepare | src/data/delivery-system/runOrchestrator.ts:86-94 | The creating method does to the directory what the specified creation does |
| ControlPlaneRuns.StateDirectory.CreateProd | scripts/control-plane-runs.ts:248-268 | The prod-draft gate and the creation behind it, as specified |
| ControlPlaneRuns.StateDirectory.ReviseProd | scripts/control-plane-runs.ts:270-294 | The prod-revision gate and the revision behind it, as specified |
| Porcelain.AcceptsExactly | scripts/verify-scope.ts:85-120 | A text is accepted exactly when it encodes a list of valid entries, and no text encodes two |
| Porcelain.ReadsEncoded | scripts/verify-scope.ts:85-120 | Reading the encoding of valid entries, renames and copies over two records, gives the entries back |
| Porcelain.ReadEncodes | scripts/verify-scope.ts:85-120 | Whatever is read is a list of valid entries whose encoding is the input |
| Porcelain.ParseGitPorcelain | scripts/verify-scope.ts:85-120 | The loop accepts exactly the encodings and returns the strictly sorted list of all current and original paths |
| Porcelain.StrictlySortedUnique | scripts/verify-scope.ts:119-119 | That list is determined by the set of paths alone |
| Porcelain.SortedDistinctIs | scripts/verify-scope.ts:119-119 | Removing repeats and sorting gives a strictly increasing list of the same strings |
| Porcelain.StatusIs | scripts/verify-scope.ts:92-106 | A status is two of ten characters, not both blank, and takes a second record exactly when one of the two is a rename or a copy |
| VerifyScope.DiffScopedExactly | scripts/verify-scope.ts:34-83 | The narrow plan is chosen exactly for ordinary dev changes whose files are clean and mapped; its joined argument splits back into the files; an area's command is in it exactly when a file touches the area |
| VerifyScope.PlanIgnoresOrder | scripts/verify-scope.ts:40-45 | Neither the order of the changed files nor repeats matter |
| VerifyScope.ResolveVerificationPlan | scripts/verify-scope.ts:34-83 | The plan built command by command is the specified one |
| VerifyScope.PlanIs | scripts/verify-scope.ts:34-83 | What is run: everything for a prod or risky change or one with a path outside the four areas; a refusal of an empty change or of a path that cannot be carried; otherwise the three checks and the tests of each area touched, in order |
| VerifyScope.AreasAre | scripts/verify-scope.ts:60-82 | Which areas a path belongs to, by the characters it begins with |
| VerifyScope.UncarriedIs | scripts/verify-scope.ts:164-178 | Which paths no narrow plan carries |
| VerifyScope.JoinedFilesSplit | scripts/verify-scope.ts:57-57 | Clean paths joined by spaces split back into exactly those paths |
| PollLoop.PollSafety | scripts/control-plane-server.ts:626-689 | In every state of every run: exactly one poll in flight or scheduled until the loop is stopped and nothing scheduled after; no poll begins after the stop; each ended poll ticked the ids of exactly the records of the store it read whose approval is `reserved` and whose status is none of completed, failed, cancelled and needs_arbitration, each record once and in store order, whichever ticks threw, and failed exactly when the store could not be read or a tick threw; incidents are attempted exactly when failing begins |
| PollLoop.NeverStuck | scripts/control-plane-server.ts:626-689 | In every state of every run what is outstanding can happen: until it is stopped the loop never comes to rest, and between polls its timer can fire; once stopped and past its last poll nothing can happen |
| PollLoop.RunInv | scripts/control-plane-server.ts:626-689 | The invariant behind it holds in every state of every run |
| PollLoop.StepSingleFlight | scripts/control-plane-server.ts:676-688 | No callback, timer or stop can put a second poll in flight or leave a second timer pending |
| PollLoop.StepIncidents | scripts/control-plane-server.ts:633-675 | Each step keeps the number of incident attempts equal to the number of times failing began |
| PollLoop.StepTicks | scripts/control-plane-server.ts:646-663 | Each step keeps every poll on its way to ticking exactly what the store it read offered |
| PollLoop.StepStopIsFinal | scripts/control-plane-server.ts:632-682 | Each step keeps the stop final |
| PollRuntime.Runtime.StartPoll | scripts/control-plane-server.ts:678-678 | Starting a poll: its first check, and the promise kept for draining |
| PollRuntime.Runtime.SupervisorSettled | scripts/control-plane-server.ts:633-657 | From the supervisor's answer to the first tick or the end of the poll |
| PollRuntime.Runtime.TickSettled | scripts/control-plane-server.ts:656-663 | From one tick's answer to the next tick or the end of the poll |
| PollRuntime.Runtime.NextTick | scripts/control-plane-server.ts:656-676 | The end of a poll: the brainstorm incident, and the next timer unless stopped |
| PollRuntime.Runtime.FinallyRan | scripts/control-plane-server.ts:678-678 | The callback that forgets the finished poll |
| PollRuntime.Runtime.TimerFired | scripts/control-plane-server.ts:676-679 | A timer starts the next poll |
| PollRuntime.Runtime.Stop | scripts/control-plane-server.ts:680-688 | Stopping cancels the timer and waits for the poll in flight, if there is one |
| HitTest.ResolvesToTop | product-design-os/scripts/capture-element-map.ts:155-168 | The answer is the one eligible node that goes before every other, and nothing exactly when none is eligible |
| HitTest.SortThenFindIsTop | product-design-os/scripts/capture-element-map.ts:161-167 | Sorting and then searching finds that node, whatever sort is used |
| HitTest.ResolveInOnePass | product-design-os/scripts/capture-element-map.ts:155-168 | One pass keeping the best so far gives the same answer without sorting |
| HitTest.InsertingIneligible | product-design-os/scripts/capture-element-map.ts:789-805 | A node that does not resolve, or is not under the point, changes nothing wherever it is inserted |
| HitTest.ZOrder | product-design-os/scripts/capture-element-map.ts:777-787 | Comparing zero-padded paths, negative values and all, is a total preorder |
| HitTest.CompareZPath | product-design-os/scripts/capture-element-map.ts:777-787 | The scan is negative, zero or positive as the first path is below, equal to or above the second at the first padded difference |
| HitTest.HitOrder | product-design-os/scripts/capture-element-map.ts:763-775 | Comparing candidates is a total order in which only a candidate ties with itself |
| HitTest.HitLeMeans | product-design-os/scripts/capture-element-map.ts:763-775 | One candidate goes before another when it is higher, else deeper, else later |
| HitTest.EligibleExactly | product-design-os/scripts/capture-element-map.ts:759-815 | On a node's own fields: visible, the point in its rectangle with the edges, and either painted so that one can see it or with a source, name, text or role that says something |
| HitTest.ZerosAreNothing | product-design-os/scripts/capture-element-map.ts:777-787 | A path that ends compares as one that goes on with zeros |
| HitTest.ViewportChosen | product-design-os/scripts/capture-element-map.ts:155-160 | The viewport is the first of the name given, and there is no answer without one |
| PointCloud.CheckBuffers | product-design-os/renderer/check-point-cloud-scene.ts:165-167 | The three checks report nothing exactly for the clouds whose decoded buffers meet the contract |
| PointCloud.CheckGeometry | product-design-os/renderer/check-point-cloud-scene.ts:192-241 | Nothing is reported exactly when the buffer holds the declared whole number of points, all finite, in the hull and within the depth budget; what is measured is the least box |
| PointCloud.CheckFacets | product-design-os/renderer/check-point-cloud-scene.ts:337-421 | Nothing is reported exactly when the facets are declared whole, fewer than the points, under the ceiling, and each within the tolerance of the measured box |
| PointCloud.CheckEdges | product-design-os/renderer/check-point-cloud-scene.ts:253-324 | Nothing is reported exactly when every edge joins two distinct points of a dense enough cloud within the squared length bound |
| PointCloud.MeasuredInterval | product-design-os/renderer/check-point-cloud-scene.ts:207-227 | Each pair of bounds is the least interval around the points' coordinates: it holds them all and both ends are attained |
| PointCloud.BoxTests | product-design-os/renderer/check-point-cloud-scene.ts:228-239 | Testing the box says of every point what the contract says of it |
| PointCloud.PassedCloud | product-design-os/renderer/check-point-cloud-scene.ts:326-336 | What a passed cloud promises: least box, facets within the depth budget but for the tolerance, no dangling edge, and every edge, on the coordinates of its two points, within twelve mean spacings of that box |
| PointCloud.EdgeOkIs | product-design-os/renderer/check-point-cloud-scene.ts:278-318 | An edge is in order exactly when its two points differ and are, on their coordinates, no further apart than the bound |
| PointCloud.EdgeCounts | product-design-os/renderer/check-point-cloud-scene.ts:253-276 | What the counts of an edge list and the density have to be: 1 to 18 000 edges of two points each, on 1500 points or more |
| PointCloud.FacetsWhole | product-design-os/renderer/check-point-cloud-scene.ts:337-380 | Either no facet field is there and the scene is not low-poly, or positions and colours are both there, decoded and encoded as they must be, with a count they agree on |
| PointCloud.FacetCounts | product-design-os/renderer/check-point-cloud-scene.ts:337-380 | What the counts of facets have to be: 1 to 4000, fewer than the points, three numbers to a point and to a colour |
| PointCloud.FacetInBoxIs | product-design-os/renderer/check-point-cloud-scene.ts:380-421 | A facet within the tolerance of the box, on the coordinates of its corners |
| PointCloud.GeometryContractIs | product-design-os/renderer/check-point-cloud-scene.ts:192-241 | The geometry contract on the numbers of the buffer: finite, x and y within one of zero, no two z further apart than six |
| CloudHost.ClearedPayloadsAreBound | product-design-os/renderer/check-point-cloud-scene.ts:683-723 | When a page that carries a payload is cleared, every matching element has at or below it an innermost one that lies in a scene section holding a canvas with both stamps, tag and attributes spelt out, and no scene section in between |
| CloudHost.SignatureExactly | product-design-os/renderer/check-point-cloud-scene.ts:733-739 | The signature at character positions: one of three geometry fields as a quoted or unquoted key, and a point count or one of three encoding tags, whatever the case |
| CloudHost.DetectUndeclaredCloudInHtml | product-design-os/renderer/check-point-cloud-scene.ts:683-723 | The page is reported exactly when it is not cleared |
| CloudHost.MatchesAreAboveHosts | product-design-os/renderer/check-point-cloud-scene.ts:704-707 | Where no character reference runs from one node into the next, the matching elements are exactly those at or above an innermost one |
| CloudHost.HostBelow | product-design-os/renderer/check-point-cloud-scene.ts:705-707 | Every matching element has an innermost matching element at or below it |
| CloudHost.SignatureUpward | product-design-os/renderer/check-point-cloud-scene.ts:733-739 | Where no character reference runs over, what holds a matching element matches too |
| CloudHost.FreePayloadReported | product-design-os/renderer/check-point-cloud-scene.ts:741-745 | A payload outside every scene section is reported whatever canvases stand elsewhere |
| CloudHost.EnclosingScene | product-design-os/renderer/check-point-cloud-scene.ts:762-775 | The walk up finds the nearest scene section at or above the element, or that there is none |
| CloudHost.IsDescendantOf | product-design-os/renderer/check-point-cloud-scene.ts:777-790 | The walk up from a node meets exactly its proper ancestors |
| CloudHost.BoundToValidatedCanvas | product-design-os/renderer/check-point-cloud-scene.ts:746-754 | A host is bound exactly when its nearest scene holds a validated canvas |
| Ranking.RankIgnoresOrder | product-design-os/scripts/score-product-design-os.ts:376-388 | With distinct ids every order of the same candidates ranks the same |
| Ranking.RankedIs | product-design-os/scripts/score-product-design-os.ts:376-388 | Ranking gives the same candidates, best first: scores never rise, equal scores go by id at the first character where the ids differ; the first and no other is selected and no candidate has a greater score |
| Ranking.GateReplaces | product-design-os/scripts/score-product-design-os.ts:156-184 | The gated selection is the allowed part of the ungated one, in order, followed by exactly what was added, and no more is added than removed; removed is exactly what was selected and is not any more |
| Ranking.EnforcedReportConserves | product-design-os/scripts/score-product-design-os.ts:200-240 | Under enforcement selected and rejected patterns are all the ranked ones, each once, exactly when no allowed pattern past the cut repeats an id from before it |
| Ranking.RepeatedIdIsLost | product-design-os/scripts/score-product-design-os.ts:200-240 | Two allowed patterns of one id of which one is wanted: the other is neither selected nor rejected |
| Ranking.ClampLimit | product-design-os/scripts/score-product-design-os.ts:561-566 | A whole limit becomes the number from one to ten nearest to it, anything else three |
| FigmaFlatten.FlattenFigmaNode | scripts/figma-fetch.ts:70-91 | The recursion over the shared list appends as much of the uncapped preorder as there is room for |
| FigmaFlatten.FlattenedIsPrefix | scripts/figma-fetch.ts:70-91 | From an empty list: the first two hundred kept nodes, or all when there are no more |
| FigmaFlatten.PreorderComplete | scripts/figma-fetch.ts:70-91 | No kept node is missing from the preorder |
| FigmaFlatten.KeptExactly | scripts/figma-fetch.ts:67-91 | Exactly text with characters and the six kinds of container are kept, with their fields |
| FigmaFlatten.LayoutExactly | scripts/figma-fetch.ts:52-65 | Layout is there exactly for auto-layout, part by part |
| FigmaFlatten.CappedTwice | scripts/figma-fetch.ts:71-71 | Filling up in two goes is filling up in one |
| EvidenceScan.ScanState.ScanDirectory | product-design-os/scripts/validate-product-design-os.ts:1038-1127 | The recursion over the shared state meets the uncapped walk item by item until the limit |
| EvidenceScan.ScanState.ScanEntry | product-design-os/scripts/validate-product-design-os.ts:1063-1126 | One entry: its refusal, its directory, or its file |
| EvidenceScan.CappedScan | product-design-os/scripts/validate-product-design-os.ts:1113-1125 | The files are the first five hundred of the walk; the limit error is reported once, last, exactly when there is a five hundred and first |
| EvidenceScan.ListEvidenceRecordFiles | product-design-os/scripts/validate-product-design-os.ts:1003-1036 | The records directory, absent, a link that leads nowhere, unreadable, linked or not a directory included, and the final sort |
| EvidenceScan.WalkFindsRecords | product-design-os/scripts/validate-product-design-os.ts:1038-1127 | A record file is met by the walk exactly when it is reached through directories that are not links and its path does not begin with two dots |
| EvidenceScan.WalkCompleteExactly | product-design-os/scripts/validate-product-design-os.ts:1038-1146 | The walk from the root meets exactly the records there are, exactly when none lies at or under a name of the root that begins with two dots |
| EvidenceScan.EscapesExactly | product-design-os/scripts/validate-product-design-os.ts:1063-1074 | A path is reported as an escape exactly when it is a name in the root itself that begins with two dots |
| EvidenceScan.WalkIgnoresListingOrder | product-design-os/scripts/validate-product-design-os.ts:1057-1057 | The order the file system lists a directory in does not matter |
| EvidenceScan.EntriesInOrder | product-design-os/scripts/validate-product-design-os.ts:1057-1057 | A directory is gone through by name, character by character |
| EvidenceScan.TwoDotsAtTheTop | product-design-os/scripts/validate-product-design-os.ts:1143-1146 | A name that begins with two dots is refused at the top, though it escapes nothing, and accepted below |
| Telemetry.SummarizeVendorCalls | scripts/telemetry-summary.ts:144-249 | The loop's counters are those of the records in the window; counted and excluded make up all records |
| Telemetry.CountsExactly | scripts/telemetry-summary.ts:130-142 | A record counts exactly when its time is known, no later than now and no earlier than the window reaches back |
| Telemetry.OneRecord | scripts/telemetry-summary.ts:144-249 | The summary of one record: each bucket, group, column and token count from its own fields, with the text used where a field is missing |
| Telemetry.InheritedAre | scripts/telemetry-summary.ts:541-543 | The twelve names every object inherits |
| Telemetry.VendorConserves | scripts/telemetry-summary.ts:174-213 | Model and session groups both add up, column by column, to the totals over all calls; each bucket's counts sum to the total exactly when no record falls under an inherited key |
| Telemetry.VendorMerges | scripts/telemetry-summary.ts:144-249 | Summarising a concatenation is merging the two summaries field by field and key by key |
| Telemetry.BucketConserves | scripts/telemetry-summary.ts:541-543 | A counter kept on a plain object sums to the number of increments exactly when no key is one every object inherits |
| Telemetry.TallyCount | scripts/telemetry-summary.ts:541-543 | What such a counter misses is exactly the increments under inherited keys |
| Telemetry.InheritedVendorUncounted | scripts/telemetry-summary.ts:541-543 | A call from a vendor named `constructor` is in the total and in no vendor's count |
| Telemetry.TallyMerges | scripts/telemetry-summary.ts:541-543 | The counters of a concatenation are the two parts' counters merged key by key |
| Grouping.GroupsSumToTotal | scripts/telemetry-summary.ts:174-213 | Groups add up to the total whatever the key, in any commutative monoid |
| Grouping.GroupMerges | scripts/telemetry-summary.ts:174-213 | Grouping a concatenation is merging the groups key by key |
| TelemetryDecisions.SummarizeDispatchDecisions | scripts/telemetry-summary.ts:251-306 | The loop's counters are those of the records in the window, and the percentage is that of its last two |
| TelemetryDecisions.OneDecision | scripts/telemetry-summary.ts:251-306 | The summary of one decision: dispatched, refused, with a lane, cheap, and its buckets |
| TelemetryDecisions.PercentageIs | scripts/telemetry-summary.ts:303-304 | The percentage times those with a lane is a hundred times those that were cheap |
| TelemetryDecisions.DecisionsConserve | scripts/telemetry-summary.ts:280-305 | Dispatched and refused do not exceed the total; the percentage is in 0..100; refusal reasons sum to the refusals exactly when none is an inherited key |
| TelemetryDecisions.Percentage | scripts/telemetry-summary.ts:303-304 | The percentage is absent exactly when no dispatch named a lane, and is 100 exactly when all of those were cheap |
| TelemetryDecisions.DecisionsMerge | scripts/telemetry-summary.ts:251-306 | Summarising a concatenation of records is merging the two summaries, excluded records included |
| TelemetryDecisions.SummarizeEfficiencyEvents | scripts/telemetry-summary.ts:308-362 | The loop's counters are those of the records in the window |
| TelemetryDecisions.OneEvent | scripts/telemetry-summary.ts:308-362 | The summary of one event: its buckets, attempts, and whether it counts as a delta and as a recommendation |
| TelemetryDecisions.EfficiencyConserves | scripts/telemetry-summary.ts:308-362 | Each of the four buckets sums to the total exactly when no record in it falls under an inherited key |
| TelemetryDecisions.EfficiencyMerges | scripts/telemetry-summary.ts:308-362 | Summarising a concatenation of records is merging the two summaries, excluded records included |
| TokenAllocation.BudgetSplitsExactly | scripts/control-plane-brainstorms.ts:141-146 | A safe budget is refused exactly when it leaves a share less than a token; otherwise the parts add up to it exactly, no sum leaves the safe range and the over-budget guard cannot fire |
| TokenAllocation.PartsOfBudget | scripts/control-plane-brainstorms.ts:178-184 | The routes, the synthesis and the arbitration add up to the budget, and the synthesis exceeds a share by less than the number of shares |
| TokenAllocation.FanoutOfEqual | src/data/delivery-system/brainstormBudget.ts:24-24 | The checked sum of equal routes stays in range and is their product |
| TokenAllocation.EstimateExactly | src/data/delivery-system/brainstormBudget.ts:13-48 | An estimate is given exactly when there is a route, every route and the consolidation take a token or more, and everything together is a safe number; its parts and bounds are their sums |
| TokenAllocation.RoundedQuotientFloors | scripts/control-plane-brainstorms.ts:180-180 | Rounding the quotient by up to an eighth does not change its floor for at most seven shares |

## Left out

- HTTP parsing, authentication, headers, JSON bodies and response writing: requests start from decoded input.
- File size limits of the state files other than the approval queue, and unreadable state files: a write either happens whole or the call dies there.
- Other users of the token gateway: group reservations and their slots, forgetting a closed reservation once acknowledged, and supervision, which act on the same object between the steps of dispatches.
- `GatewayFile.FileStaysReadable`: does not cover the loader's checks of single fields, such as timestamps and string lengths, the range of safe integers and the limit of 2 MiB on the file, which is checked before every write.
- `DispatchHandoff.StartDispatch`: records of telemetry and decisions are best effort in the code, which carries on when one cannot be written; the journal is what is asked to be recorded.
- Two processes reading and writing one state file at the same moment: each synchronous stretch of a handler is one step, as it is in the one server process, except that a request may act on a run it read earlier.
- UTF-16: strings are sequences of code points, so lengths and sort order differ from JavaScript's beyond the basic plane.
- Case folding, word characters and decimal digits outside ASCII.
- `RunRevision.PromptTokens`: the limit of 32 000 UTF-16 units on a prompt is not modelled, because the cap of 9 000 bytes is always reached first.
- Fields of a stored approval that no modelled operation reads are in its size only; the time of an approval is taken as twenty-four characters.
- Fields of a run record that no modelled operation reads, such as artifacts, reservations and provider results, and approval ids, which the run and revision determine.
- Runs created for brainstorm groups, and the queueing and supervision of approved runs beyond their status.
- The order of integer-like keys in JavaScript objects, and inherited names as token files or token keys in the token compiler.
- Comments in CSS and other places where regular expressions see text that the CSS grammar would not.
- IEEE-754 rounding in colour arithmetic, point coordinates and percentages; lengths are compared squared, and a declared point count that is NaN or infinite is not modelled.
- Monotonicity of relative luminance: the two pieces do not join monotonically over the reals at the 0.03928 threshold.
- `PointCloud.CheckBuffers`: does not cover the payload, depth, provenance, text-twin and reduced-motion checks, because they are one comparison or one search each.
- The HTML parser: `CloudHost` starts from the parsed tree, and comments are not in it.
- `CloudHost.MatchesAreAboveHosts`: holds where no character reference runs from one node into the next, because an element's text is decoded as a whole.
- `CloudHost.SignatureUpward`: the same.
- The scores themselves (`score-product-design-os.ts:257-374`): ranking and gating hold for any scores but NaN.
- The numbers Figma reports: `FigmaFlatten` starts from numbers already written out.
- `EvidenceScan.ScanState.ScanDirectory`: resolving paths against a file system; entry names are taken as the file system gives them.
- Time: `PollRuntime.Runtime.Stop` returns the poll it waits for but not how long it waits.
- Cockpit components, Markdown reports, command-line parsing and the JSON-schema validators: shape checks that would add easy members.
