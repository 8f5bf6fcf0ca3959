# dockerfile-x: a verified model of the include compiler and of its sources

dockerfile-x reads a Dockerfile that refers to other Dockerfiles (`FROM ./file#stage`,
`COPY --from=./file`, `INCLUDE ./file`) and writes one flat multi-stage Dockerfile. This project
models the compiler and the places it reads from, and proves what they promise.

**The compiler.** A document is a sequence of instructions; `Dockerfile.dfy` says what a flat
document builds: each stage is its base image (an external image, or the latest earlier stage of
that name) with its body on top, and every `--from` and mount reference stands for the image it
resolves to. Every other instruction adds one layer (`Dockerfile.BuildCounts`); ARG lines and
comments build nothing. Every pass is modelled in the order and with
the branches of the source: the in-place scoping loop with its `startsWith` test, the alias line,
deduplication by text, the forward pass that sanitises names, the hoisting of ARGs, and the
recursion with its depth and cycle guards. `Interpreter.dfy` reads the same include tree directly,
without renaming or joining anything. The main theorem, `CompilerCorrectness.CompilerCorrect`
with `RootLoadDockerfile.RootCorrect` and `TidyLoads.TidyTreeIsWritten`, says that both agree for
every tidy tree, at every depth: the written Dockerfile builds the image that reading the tree
gives, and a tree whose files are all there is written exactly when no walk through its includes
is longer than the limit. `PlainTrees.PlainTreeIsWritten` is the same theorem with demands on the
input only.

**Tidy trees.** The compiler matches names by text, so it needs names it can tell apart.
`TidyTrees.dfy` states what it needs as demands that can be checked on the input, file by file, for
every file that some FROM, `--from` or INCLUDE below the root brings in and for the root with its
INCLUDEs written out. All demands are local: a file is judged by its own instructions and by an
outline of each file it brings in (`TidyTrees.Outline`: the external images referred to there, and
the stage names). Slugs of different files that one file brings in differ and none starts another
or an external image of the file. In a file below the root, no stage name starts an external image;
a name may start a slug if it stands in the right order (behind the stages of that file, or, for
the file's own slug, before everything that is brought in); and every own base and every wanted
stage is met in order (`ScopeStages.MetInOrder`). One parent uses a file under one slug and for one
target; references go to earlier stages or external images; body text comes after a FROM. A file
below the root may INCLUDE body text, at any depth, and files with stages, whose last stage it then
continues: such a file is brought in once, and nothing behind the INCLUDE names one of its stages.
The root's own names only have to differ from external and generated ones.

Two further demands, joined in `CompilerCorrectness.LinesSafe`, are about gathered lines.
`SanitizedRoots.PassesSafe` says of the root that no stage is met for the first time after the
last one was already met, that sanitising merges no names and changes no mounted one, and that
nothing outside an INCLUDEd file refers to a stage of it that is renamed before the root sees it.
`RootIncludes.IncludesKeepLast` says that the last stage of every file that the root INCLUDEs
stays last. `PlainTrees.dfy` derives both from the input: names in lower case and short enough for
the nesting, and named last stages.

**Where the promise fails.** Where a pass can change the meaning, there is a concrete document on
which it does (`KnownLimits.dfy`, `ChainedTargets.dfy`) and, beside it, the exact condition under
which it does not. The `startsWith` test fails in two ways: a base is taken for another stage that
was met first (`ScopingConfusesNames`), and a base that was rewritten already is hit again by a name
that starts the slug (`RewrittenBaseIsHitAgain`: the file build.dockerfile with a stage `build`).
`ScopeStages.BaseExact` and `ScopingIsRenaming` cover both, in both directions; they leave out only
documents in which a stage name is the slug with a part of `--name` behind it. The other conditions
are `IncludedFiles.NestedTargetExact` for a target below the root,
`DeduplicateStages.LastChunkKept` for a repeated last stage, `SanitizeStageNames.SanitizingExact`
for mounts, `RootNames.IncludeTextExact` and `IncludedReferences.RootIncludeExact` for an INCLUDE
at the root, `IncludedReferences.NestedIncludeExact` for an INCLUDE of a file with stages below
it, and `TwoLoads.SecondTargetExact` and `SecondCopyExact` for two targets of one file. What
scoping does to a document that does not meet its condition is stated too: the confused bases are
computed by `ScopeStages.ScopingRebases`, and the stages that do not depend on one keep their
images (`RebasedStages.ScopingKeepsLiveMeaning`), which is why a target may stand before stages
that nothing uses.

`ExampleTree.dfy` is a tree of seven files, two levels deep, that meets all demands: the root
INCLUDEs a file with a stage, continues the stage `build` of a second file, which itself continues
an early stage of a third, INCLUDEs body text that INCLUDEs more, and copies from the INCLUDEd
stage and from a fourth file. `TreeIsWritten` concludes from the theorem which image the compiler
writes for it. The slug and the digest are uninterpreted functions.

`FixtureTree.dfy` is the include tree of the repository's own fixtures fromWithTarget and include,
with the slugs that its snapshots show: downloader.dockerfile is an INCLUDE of ubuntu.dockerfile and
one more command, and node.dockerfile goes on from both. Both roots meet all demands, and
`FixturesAreWritten` concludes from the theorem which images the compiler writes for them.

**The sources.** `SingleFlight.dfy` (callers share fetches), `HttpCache.dfy` (conditional requests
over a shared cache file with ETags and dates; sections 13.1.2, 13.1.3 and 13.2.2 of RFC 9110) and
`Publication.dfy` (clone or pull to a temporary directory, then rename) are step systems whose
theorems hold for every interleaving. `Sources.dfy` and `SanitizeRelativePath.dfy` cover
references, keys and relative joins, `EnvFiles.dfy` the printer of environment files, and
`ParseDockerfile.dfy` the merging of here-documents.

Where the documentation and the code differ, the model follows the code. The repository's README
says that an INCLUDEd Dockerfile is integrated without any modification; the code deduplicates
and sanitises it when the root includes it, and scopes it when an included file does. Only a file
of body instructions, with INCLUDEs of such files at every depth, passes unchanged
(`Snippets.SnippetLoads`). The README's example of two targets of one file is right only under the
condition of `TwoLoads.SecondTargetExact`.

`dafny verify dfyconfig.toml` checks the whole project in a few minutes.

## Model

| member | source | states |
|---|---|---|
| Renaming.RenamingKeepsMeaning | src/core/scopeStages.js:30-80 | Any renaming that merges no names of a document and moves no external reference leaves the image of every stage and of the document unchanged; both renaming passes are instances. |
| Renaming.EnvRenamed | src/instruction/from.js:65-73 | The general form: related starting environments stay related, so text may also be placed after other text that leaves its external references alone. |
| ScopeStages.IdentifyStages | src/core/scopeStages.js:9-28 | The first loop names unnamed stages `final-stage` in place and collects all stage names in order. |
| ScopeStages.DefaultedExactly | src/core/scopeStages.js:14-26 | Exactly the stages without a name are called `final-stage`, unless their base starts with '.' or '/'; nothing else changes. |
| ScopeStages.RewriteStage | src/core/scopeStages.js:32-79 | The inner loop, for one name: declarations, `--from` and mounts on equality, bases on a common start. |
| ScopeStages.ScopeInstructions | src/core/scopeStages.js:6-81 | The whole pass in place equals the rounds of `Scoped`. |
| ScopeStages.ScopingIsRenaming | src/core/scopeStages.js:31-53 | If a name that starts a prefixed name starts the prefix itself, the loop equals the simultaneous renaming of declarations, bases, `--from` and mounts exactly when every base is met in order: it comes before every other name that starts it and no name that starts the prefix follows, or, for a base that starts the prefix, it is the last such name. |
| ScopeStages.ScopingRebases | src/core/scopeStages.js:31-79 | On every such document the loop equals that renaming after each base was replaced by the first declared name that starts it and then by each later name that starts the prefix. |
| ScopeStages.BaseExact | src/core/scopeStages.js:45-53 | The same for one base, both directions, declared or not. |
| KnownLimits.RewrittenBaseIsHitAgain | src/core/scopeStages.js:46-53 | A concrete document in which a base that was rewritten is hit again, so that a stage gets itself as base and another image. |
| KnownLimits.EarlyNameIsSafe | src/core/scopeStages.js:46-53 | A concrete document with a name that starts the prefix, which is scoped rightly. |
| ScopeStages.ScopingKeepsMeaning | src/core/scopeStages.js:6-81 | If every base is met in order and no external name is started by a stage name or is a prefixed one, scoping keeps the image of every stage, under its prefixed name, and of the document. |
| RebasedStages.ScopingKeepsLiveMeaning | src/core/scopeStages.js:6-81 | Whatever bases are confused, every stage that does not depend on a confused one keeps its image under its prefixed name. |
| ScopeStages.ScopeRenamingCaptureFree | src/core/scopeStages.js:7-41 | The scoping renaming merges nothing and captures no external reference. |
| KnownLimits.ScopingConfusesNames | src/core/scopeStages.js:46-53 | A concrete document on which the `startsWith` test gives a stage the wrong base. |
| IncludedFiles.NestedTargetExact | src/core/postProcessDockerfile.js:46-61 | Behind a file used below the root, the outer scoping takes the base of the alias line for itself exactly when no other declared name that starts the wanted name comes before it in the used file. |
| KnownLimits.TargetTakenForOther | src/core/postProcessDockerfile.js:46-61 | A concrete included document, taken through all its passes, whose wanted stage the outer scoping then takes for another. |
| DeduplicateStages.SplitStages | src/lib/deduplicateStages.js:6-24 | The loop splits the document before each FROM. |
| DeduplicateStages.DeduplicateDocument | src/lib/deduplicateStages.js:3-37 | The pass keeps the first of equal stages and joins the rest, as `Deduplicated` says. |
| DeduplicateStages.KeepFirstOrder | src/lib/deduplicateStages.js:27-34 | Every stage is kept once, in the order of first occurrences. |
| DeduplicateStages.DeduplicationIsIdempotent | src/lib/deduplicateStages.js:6-36 | Splitting the result gives back the kept stages, so the pass is a fixed point. |
| DeduplicateStages.DeduplicationDeclaresOnce | src/lib/deduplicateStages.js:27-34 | If equal names mean equal text, every name is declared once afterwards. |
| DeduplicateStages.DeduplicationKeepsMeaning | src/lib/deduplicateStages.js:26-36 | If equal names mean equal stages, every name keeps its image; the document keeps its image if no stage is first met after the last one. |
| DeduplicateStages.LastChunkKept | src/lib/deduplicateStages.js:27-34 | The last stage stays last exactly under that condition. |
| DeduplicateStages.OwnNameMetLast | src/lib/deduplicateStages.js:27-34 | A last stage with a name of its own meets the condition. |
| KnownLimits.RepeatedLastStageIsLost | src/lib/deduplicateStages.js:27-34 | A concrete document whose last stage is dropped, and with it its image. |
| SanitizeStageNames.SanitizedNameForm | src/utils/sanitizeStageName.js:5-12 | A sanitised name is over [a-z0-9_-], at most 255 long, and fixed by a second pass; names of that form are not changed. |
| SanitizeStageNames.SanitizedExactly | src/utils/sanitizeStageName.js:5-12 | Up to 255 characters every letter becomes its own lower-case letter, digits, '_' and '-' stay and everything else becomes '_'; of a longer name the first 244 such characters stay, with a dash and the first ten characters of the digest behind them. |
| SanitizeStageNames.SanitizedSame | src/utils/sanitizeStageName.js:7-10 | Two names get the same result exactly if their cleaned texts agree, or, where one is too long, its kept part and digest say so. |
| SanitizeStageNames.SanitizeDocument | src/lib/sanitizeStageNames.js:7-52 | The loop with its alias map equals `Sanitized`. |
| SanitizeStageNames.SanitizingIsIdempotent | src/lib/sanitizeStageNames.js:14-51 | On every document the pass is idempotent and leaves only aliases of the accepted form. |
| SanitizeStageNames.SanitizingExact | src/lib/sanitizeStageNames.js:33-48 | The pass equals the renaming of all declared names exactly when it changes no name that a mount refers to. |
| SanitizeStageNames.SanitizingKeepsMeaning | src/lib/sanitizeStageNames.js:14-51 | If sanitised names stay apart from each other and from external references and mounts are not affected, every stage and the document keep their image. |
| SanitizeStageNames.WellFormedNamesSafe | src/utils/sanitizeStageName.js:5-12 | Names that already have the accepted form meet that condition. |
| KnownLimits.MountLosesStage | src/lib/sanitizeStageNames.js:46-48 | A concrete document whose mount loses its stage. |
| KnownLimits.IncludedNameIsLost | src/core/postProcessDockerfile.js:73-75 | A concrete INCLUDEd stage that is renamed before the root refers to it by its own name. |
| IncludedReferences.RootIncludeExact | src/instruction/include.js:41-66 | Behind an INCLUDE at the root every stage is built as if the file stood there exactly when none refers to a stage whose name sanitising changed. |
| IncludedReferences.NestedIncludeExact | src/instruction/include.js:41-66 | Behind an INCLUDE of a file with stages below the root every stage is built as if the file stood there exactly when none refers to one of its stages. |
| IncludedReferences.StagesExact | src/instruction/include.js:41-66 | Two surroundings give all stages of a text the same images exactly when its free references mean the same in both. |
| KnownLimits.NestedNameIsLost | src/instruction/include.js:41-66 | A concrete document INCLUDEd below the root whose stage is not found by the FROM behind it. |
| PostProcessDockerfile.CountFroms | src/core/postProcessDockerfile.js:31-33 | Counts the FROM instructions. |
| PostProcessDockerfile.InsertAliases | src/core/postProcessDockerfile.js:35-63 | The loop adds the alias line behind the FROM of every chosen stage and reports whether the target was found. |
| PostProcessDockerfile.PostProcess | src/core/postProcessDockerfile.js:11-78 | The passes in their order, or the missing target. |
| PostProcessDockerfile.WithAliasSplits | src/core/postProcessDockerfile.js:46-63 | If exactly stage k is chosen, the pass splits stage k into its base under the old name and its body under the alias, and changes nothing else. |
| PostProcessDockerfile.TargetErrorExact | src/core/postProcessDockerfile.js:65-69 | Where no stage is named like a prefixed one, the target is reported missing exactly when no stage of the file has its name. |
| PostProcessDockerfile.ChoosesWanted | src/core/postProcessDockerfile.js:52-59 | In a file with distinct names the request chooses the wanted stage and no other, so one alias line is added. |
| PostProcessDockerfile.IncludedFileMeaning | src/core/postProcessDockerfile.js:35-75 | Alias correctness: after scoping, splitting and deduplication the alias means the target stage of the original file, or its last stage without a target. |
| TwoTargets.SecondTargetStages | src/core/postProcessDockerfile.js:46-61 | The stages of one file for two targets, one behind the other: after dropping repeats the alias means the second target exactly when that does not depend on the first through a stage the second load does not repeat. |
| TwoLoads.SecondTargetExact | src/instruction/from.js:49-73 | The same for documents: two loads of one file through all passes, own stages between them, then deduplication. |
| TwoLoads.SecondCopyExact | src/instruction/fromParam.js:69-83 | A copy from a second target goes in front of the first load, so it reads the first target, and is right exactly when both have the same image. |
| LeafLoads.SecondLeafExact | src/lib/deduplicateStages.js:27-34 | For a file without comments and ARGs the condition can be read off the input. |
| ChainedTargets.SecondTargetIsLost | src/core/postProcessDockerfile.js:46-61 | A concrete file of three stages and a document that names two of them, whose second alias does not mean its stage. |
| LoadDockerfile.LoadFile | src/core/loadDockerfile.js:22-100 | The recursive load with its guards equals `Load`. |
| LoadDockerfile.ProcessItem | src/instruction/fromParam.js:25-85 | One instruction changes the shared lines as `Lines` says: FROM and INCLUDE append, `--from` of a file unshifts and pushes. |
| LoadDockerfile.LinesErrStays | src/core/loadDockerfile.js:78-86 | The first error of an instruction is the error of the file. |
| LoadDockerfile.FramedExactly | src/core/generateIncluded.js:7-27 | Included text stands between a START and an END comment, written out, with the same attributes. |
| IncludeGuards.GuardsAreExact | src/core/loadDockerfile.js:34-56 | Leaving aside read and target errors, the root loads exactly when no walk of includes has more edges than the limit, and then every file that a walk reaches is there; every error is as described next. |
| IncludeGuards.ErrorsReport | src/errors/IncludeCycleError.js:3-10 | The chain is always a simple path as long as the nesting level; a depth error carries a simple path of limit + 1 keys, a cycle error a simple path and one of its keys again, a read error names a file that a walk reaches and that is not there, a target error a target that some reached file asks for. |
| IncludeGuards.SuccessBoundsWalks | src/core/loadDockerfile.js:34-40 | A load that succeeds bounds every walk below it, and every walk ends at a file that is there. |
| Interpreter.MeaningNeedsNoMore | src/core/loadDockerfile.js:22-100 | The bound on nesting in the direct reading changes no meaning that it reaches. |
| TidyTrees.OwnedApart | src/core/scopeStages.js:7-8 | No generated name of one file starts a generated name of another. |
| IncludedFiles.NamesApartHere | src/core/scopeStages.js:31-53 | The no-clash hypothesis of scoping is inherited: it holds for the lines of every included file at every level. |
| IncludedFiles.OwnStageSteady | src/core/scopeStages.js:45-53 | No stage of a used file depends on a base that its scoping confuses, although stages it got from other files may. |
| IncludedFiles.OutcomeOrdered | src/core/postProcessDockerfile.js:46-61 | In what an included file returns, for any target met in order, the alias and every base that the alias depends on are met in order. |
| IncludedFiles.OutcomeOwned | src/core/postProcessDockerfile.js:46-61 | Every stage that an included file returns is named, by its alias or under its prefix. |
| IncludedFiles.OutcomeKeeps | src/core/postProcessDockerfile.js:46-75 | What an included file returns is well formed: equal names are equal stages, and no reference becomes external that was not. |
| LineInvariants.BlockInserted | src/instruction/fromParam.js:69-76 | Putting the stages of a file in front, at the end or, at the root, in between keeps the invariant: every stage is own or of a file brought in, own names once, undeclared references external. |
| LineInvariants.OwnStageAdded | src/instruction/from.js:72 | A new own stage keeps the invariant. |
| LineInvariants.AliasStageAdded | src/instruction/include.js:41-66 | So does the alias stage of an INCLUDEd file, which the file then continues as its own. |
| LineOrder.BlockAppendedInOrder | src/instruction/from.js:65-73 | Stages added at the end keep every base that may be wanted met in order. |
| LineOrder.BlockCopiedInOrder | src/instruction/fromParam.js:69-76 | So do stages put in front. |
| LineOrder.OwnNameKeepsOrder | src/core/scopeStages.js:45-53 | So does a name of the file's own, also one that starts a slug. |
| LineOrder.BroughtBaseOnce | src/core/scopeStages.js:45-53 | No base of a stage that was brought in is hit a second time by a name that starts the file's slug. |
| LineInvariants.SyntaxUniform | src/lib/deduplicateStages.js:26-31 | Under the invariant equal names are equal stages, also for a file used several times. |
| StageSets.MoreStagesSameImage | src/instruction/fromParam.js:69-76 | If equal names are equal stages and references go backwards, a name keeps its image when stages are added, repeated or put in another order. |
| LineMeaning.BlockImages | src/instruction/from.js:65-73 | So putting in the stages of a used file disturbs no image that the file's own names, its aliases or external references have. |
| LineMeaning.AliasStageMeans | src/instruction/include.js:41-66 | Behind an INCLUDE the alias stage has the image that the INCLUDEd file means. |
| LineMeaning.CopyRuns | src/instruction/fromParam.js:69-83 | A copy from a file adds the layer that copies from the image the file means. |
| Snippets.SnippetLoads | src/instruction/include.js:41-66 | A file with body instructions only, INCLUDEs of such files and of environment files among them, passes unchanged through every pass at the root and nested, and stands for its instructions written out. |
| LineSteps.AppendStep | src/instruction/from.js:53-73 | What FROM, FROM of a file and body text do to the stages of any lines before them. |
| LineSteps.CopyStep | src/instruction/fromParam.js:55-84 | `--from` of a file puts its stages in front of the file's own lines and the copy behind them, also inside an INCLUDE. |
| GatheredLines.LinesGathered | src/core/loadDockerfile.js:78-86 | After every instruction of a file the gathered lines keep the invariants and build what reading the instructions gives, with INCLUDEd files read apart. |
| Readings.StepAgrees | src/core/loadDockerfile.js:78-86 | Reading in place and reading with INCLUDEd files apart agree, outside the names an INCLUDE hides, after every instruction that is no INCLUDE of stages. |
| Readings.IncludeAgrees | src/instruction/include.js:41-66 | They agree behind an INCLUDE of stages too, if the file in place leaves all names alone that it does not declare. |
| UsedFiles.ReadsFrom | src/instruction/include.js:41-66 | By induction over the nesting, every file below a tidy root that loads, read in place from any point, agrees with what the compiler makes of it. |
| UsedFiles.FileOutcome | src/core/loadDockerfile.js:78-99 | A file that is brought in is accepted, gives its user the image its target means, and keeps the demands its user relies on. |
| UsedFiles.UsedHolds | src/core/loadDockerfile.js:22-100 | By induction over the nesting, this holds for every file that is brought in below a tidy root, by FROM, `--from` or INCLUDE. |
| FlatRoots.LoadShallower | src/core/loadDockerfile.js:34-56 | A file that loads gives the same text at every smaller depth and along every shorter chain. |
| RootNames.IncludeTextExact | src/core/postProcessDockerfile.js:57-75 | An INCLUDE at the root puts in the deduplicated lines of the file and nothing else exactly when their names are sanitised already. |
| ThinnedLines.KeptThinned | src/lib/deduplicateStages.js:27-34 | Dropping repeats behind the root's own lines keeps the invariant and every image if the last stage stays last. |
| RootIncludes.RootGathered | src/instruction/include.js:41-66 | The root's lines, with INCLUDEd files deduplicated on their own and their own names kept, build what reading the root with the INCLUDEs in place gives. |
| SanitizedRoots.PassesKeepMeaning | src/lib/sanitizeStageNames.js:14-51 | Text of which parts were sanitised before builds, after deduplication and sanitising, what the unsanitised text builds, stage by stage, if nothing refers to a renamed stage from outside. |
| CompilerCorrectness.CompilerCorrect | src/core/loadDockerfile.js:78-99 | Compiler correctness: for every tidy tree that loads, the last stage of the output builds exactly the image that reading the root gives, and every reference in it that is not external comes after a stage declaring it. |
| CompilerCorrectness.StagesCorrect | src/lib/sanitizeStageNames.js:24-29 | Every named stage of the root, also of the files it INCLUDEs, that no nested INCLUDE hides keeps its image under its sanitised name. |
| TidyLoads.TidyTreeIsWritten | src/core/loadDockerfile.js:34-99 | A tidy tree whose files are all there is written exactly when no walk through its includes has more edges than the limit, and then correctly. |
| PlainTrees.PlainTreeSafe | src/utils/sanitizeStageName.js:5-12 | Short lower-case names and named last stages imply the demands on gathered lines. |
| PlainTrees.PlainTreeIsWritten | src/core/loadDockerfile.js:34-99 | Compiler correctness with demands on the input only: the tree is written exactly when no walk is longer than the limit, and what is written builds the image the tree means. |
| ExampleTree.TreeIsTidy | src/instruction/from.js:20-74 | The demands of the theorem can be met, by a tree of seven files with both kinds of INCLUDE, a copy from a file, and early targets at the root and two levels down. |
| ExampleTree.TreeIsSafe | src/core/loadDockerfile.js:34-99 | The tree loads, no walk in it is too long, and the demands on gathered lines hold, so no hypothesis of the theorems is empty. |
| ExampleTree.TreeIsWritten | src/instruction/fromParam.js:25-85 | The image that the written Dockerfile of this tree builds, concluded from the theorem. |
| FixtureTree.TreeIsTidy | test/fixtures/inc/downloader.dockerfile:1-9 | The tree of two of the repository's fixtures, in which an included file INCLUDEs one with a stage and continues it, meets the demands for both roots. |
| FixtureTree.FixturesAreWritten | test/__snapshots__/FROM/fromWithTarget.expected.dockerfile:1-47 | The images that the written Dockerfiles of both fixtures build, concluded from the theorem. |
| RootLoadDockerfile.LoadRoot | src/core/rootLoadDockerfile.js:30-32 | The load followed by the hoisting; nothing if a comment looks like a START comment and cannot be read. |
| RootLoadDockerfile.RootCorrect | src/core/rootLoadDockerfile.js:30-32 | The whole compiler: the output is the loaded text with lines on top, builds what the tree means, and these lines are exactly the hoisted ARGs of the gathered lines, one word each, once each, in the order in which they are met. |
| RedeclareArgTop.RedeclareArgs | src/lib/redeclareArgTop.js:4-40 | The state machine fails exactly on an unreadable START comment; else the output ends with the document, and the lines before it are one-word ARGs, exactly those that stand between a FROM or `--from` START and the next FROM outside the global top, once each, in the order in which they are met. |
| RedeclareArgTop.HoistedExactly | src/lib/redeclareArgTop.js:7-37 | The hoisted list holds, once each, exactly the first words of ARGs between a FROM or `--from` START and the next FROM, outside the global top. |
| RedeclareArgTop.HoistedInOrder | src/lib/redeclareArgTop.js:7-32 | A word that is listed earlier is met before every place where a later one is met. |
| RedeclareArgTop.OpensExactly | src/lib/redeclareArgTop.js:19-23 | Of the START comments, written out, those of FROM and `--from` open a preamble and that of INCLUDE does not, whatever the paths in them are. |
| RedeclareArgTop.HoistedByStage | src/lib/redeclareArgTop.js:10-37 | It is determined stage by stage. |
| RedeclareArgTop.DeduplicationKeepsArgs | src/lib/redeclareArgTop.js:7-39 | So deduplication does not change it. |
| RedeclareArgTop.SanitizingKeepsArgs | src/lib/redeclareArgTop.js:7-39 | Nor does sanitising. |
| RedeclareArgTop.RedeclaringKeepsStages | src/lib/redeclareArgTop.js:39 | The lines put on top build nothing. |
| IncludeComments.ParseStartComment | src/lib/parseDockerfileXStartComment.js:1-20 | The loop over the pairs equals `StartAttributes`. |
| IncludeComments.TokensExactly | src/lib/parseDockerfileXStartComment.js:9-10 | A run of white space of any length separates two pairs. |
| IncludeComments.QuotesStripped | src/lib/parseDockerfileXStartComment.js:15 | One quote of either kind is dropped at each end of a value. |
| IncludeComments.IncludeTypeReadBack | src/core/generateIncluded.js:7-20 | For every two paths, with spaces, '=' or quotes in them, the reader finds the include type the printer wrote. |
| SingleFlight.Downloads.Download | src/lib/downloadWithCache.js:329-339 | A call returns the entry of its key or starts a fetch, as the step system says. |
| SingleFlight.Downloads.CleanUp | src/lib/downloadWithCache.js:334-336 | The `finally` callback removes the entry of the key. |
| SingleFlight.RunsAreConsistent | src/lib/downloadWithCache.js:188-188 | In every run the map holds exactly the fetches that are not finalised, each under its key. |
| SingleFlight.OneLiveFetch | src/lib/downloadWithCache.js:329-339 | At most one fetch of a key is live, and the map entry is that fetch. |
| SingleFlight.CleanUpEvictsItself | src/lib/downloadWithCache.js:334-336 | Cleaning up removes the fetch's own entry and no newer or other one. |
| SingleFlight.CallerReceivesLiveFetch | src/lib/downloadWithCache.js:329-339 | Every caller is bound to a fetch of its key that was not finalised when it called, and receives the outcome of that fetch. |
| SingleFlight.HistoryDecides | src/lib/downloadWithCache.js:329-339 | In every run a fetch has exactly the outcome that settled it, is finalised exactly if its clean-up ran, and a caller has received something exactly if it was delivered. |
| HttpCache.RunsAreCoherent | src/lib/downloadWithCache.js:212-316 | Over every run with any number of fetches, writers of the cache file and new versions whose validators vouch for content: a returned body is the origin's content at the moment of the reply, or, after a network failure only, a body that was stored before. |
| HttpCache.FreshExact | src/lib/downloadWithCache.js:219-294 | Over a history of versions, every 304 in every run stands for the current content exactly when no later version calls an earlier one with other content not modified, by ETag, or by date for a version without one. |
| HttpCache.FreshIsCurrent | src/lib/downloadWithCache.js:219-294 | On 304 the ETag and date that were sent and the content that is returned come from the same stored response, which is the current content. |
| HttpCache.AnswersAreCurrent | src/lib/downloadWithCache.js:293-315 | Reply by reply: 304 gives the current content, 2xx stores it, an error status is thrown, and a network failure gives the content of the entry that was read, or is thrown if none was. |
| HttpCache.ResultsExplained | src/lib/downloadWithCache.js:212-316 | In every run the result of a fetch follows from what it read, what it was answered and whether it could write: the entry after 304 or a network failure, the content of the reply after a write, else an error; its request carried the validators of the entry it read. |
| HttpCache.FileIsLastWrite | src/lib/downloadWithCache.js:297-306 | In every run the cache file holds the reply that the last successful write put there. |
| HttpCache.ResultsStay | src/lib/downloadWithCache.js:329-339 | A fetch that has a result keeps it. |
| HttpCache.ValidatorsAnswer | src/lib/downloadWithCache.js:219-227 | The conditions of a stored version confirm an unchanged one whenever it has a validator; another ETag, or a newer date where there is no ETag, is not confirmed. |
| Publication.NeverPartial | src/sources/GitSource.js:45-183 | With any number of processes the shared directory is complete or absent, published once at most, and every resolved entry has a published directory. |
| Publication.NeverReplaced | src/sources/OciSource.js:241-250 | A published directory is never replaced, and a resolved entry stays resolved. |
| Publication.EntriesNamePublished | src/sources/OciSource.js:172-263 | Every resolved entry names the one complete directory, and each process fetches successfully at most once. |
| Publication.RenameDecides | src/sources/GitSource.js:159-171 | In every run an allowed rename onto an absent directory publishes the temporary tree and resolves the entry, a rename that finds one uses it, and a refused one leaves no entry. |
| Publication.FailureIsForgotten | src/sources/GitSource.js:175-183 | A failure at any point forgets the entry and publishes nothing. |
| Publication.AlwaysResolvable | src/sources/OciSource.js:172-263 | From every state that a run reaches, a process that is left alone ends with the complete published directory. |
| Sources.GitKeyReadBack | src/sources/GitSource.js:348-351 | A printed Git key, read as a reference, gives the same repository, commit or reference, and path. |
| Sources.GitParsedExactly | src/sources/GitSource.js:236-255 | A reference is cut at the first '#' and the first ':' behind it, after a scheme in any case of letters; parts that start with a dash and paths that climb are refused. |
| Sources.GitMalformed | src/sources/GitSource.js:238-250 | A reference without '#', or without ':' behind it, is refused. |
| Sources.GitChild | src/sources/GitSource.js:333-346 | A child is the file that the join names, in the same repository at the same reference and commit; it exists exactly if the join is accepted. |
| Sources.GitIdentityKept | src/sources/GitSource.js:333-351 | Whatever is pinned and joined, repository and reference stay, and every source is identified by the commit that was pinned last. |
| Sources.GitKeysIdentify | src/sources/GitSource.js:348-351 | Git keys are equal exactly for equal identities. |
| Sources.GitReachable | src/sources/GitSource.js:236-255 | Every source reached by parsing, pinning and joining, in any order, is of the form these need. |
| Sources.OciKeyReadBack | src/sources/OciSource.js:302-351 | A printed OCI key reads back as the same artifact and path, as digest or as tag as it was printed; the exceptions are a digest without repository name and a digest that starts with a dash. |
| Sources.OciPinnedExactly | src/sources/OciSource.js:302-338 | A reference that ends in `@algorithm:hex` is pinned to this digest; without repository name it is refused. |
| Sources.OciTaggedExactly | src/sources/OciSource.js:340-351 | Every other one is cut at its last colon, and an empty tag is refused. |
| Sources.OciMalformed | src/sources/OciSource.js:304-348 | A reference without '#', without '/' before it, or without ':' behind that is refused. |
| Sources.OciChild | src/sources/OciSource.js:454-468 | A child is the file that the join names, in the same artifact under the same tag and digest. |
| Sources.OciIdentityKept | src/sources/OciSource.js:454-473 | Whatever is pinned and joined, registry, repository and tag stay, and the digest is the one that was pinned last. |
| Sources.OciKeysIdentify | src/sources/OciSource.js:470-473 | OCI keys are equal exactly for equal identities; digest and tag forms are never confused. |
| Sources.OciReachable | src/sources/OciSource.js:302-351 | Every source reached by parsing, pinning to any accepted digest and joining, in any order, is of the form these need. |
| Sources.KeysOfSchemesApart | src/sources/LocalSource.js:76-78 | Keys of local, HTTP, Git and OCI sources never coincide. |
| Sources.KeysIdentify | src/sources/LocalSource.js:76-78 | Keys of any two sources, of any kinds, are equal exactly if they stand for the same text. |
| SanitizeRelativePath.SanitizedIsClean | src/sources/sanitizeRelativePath.js:9-21 | An accepted path is relative without ".." segments and is accepted again unchanged. |
| SanitizeRelativePath.SanitizedExactly | src/sources/sanitizeRelativePath.js:9-21 | A path is refused exactly if two dots stand alone between its ends and slashes of either kind; else its leading slashes are all that is dropped. |
| SanitizeRelativePath.DirectoryOf | src/sources/GitSource.js:335 | Every path that does not start with a slash has a directory: the segments before its last non-empty one. |
| SanitizeRelativePath.JoinExact | src/sources/GitSource.js:333-346 | A join walks the segments of the including path but its last one, and then the relative path. It is accepted exactly when this walk never climbs above the root of the source and no segment that stays has a ".." between backslashes; and then its path, resolved under any directory, is where the walk leads, written with single slashes. |
| SanitizeRelativePath.JoinsStayInside | src/sources/OciSource.js:454-468 | After any chain of accepted joins the path is relative, has no ".." segment and resolves under the source directory. |
| EnvFiles.CleanValueIsEscape | src/core/loadEnvFileAndPrefix.js:5-10 | For every string the five replaces equal one pass over its characters. |
| EnvFiles.EscapeReadBack | src/core/loadEnvFileAndPrefix.js:5-11 | A reader that refuses unescaped dollars, backticks and line breaks recovers the value up to CRLF, and ends at the closing quote the printer wrote. |
| EnvFiles.EscapeInjective | src/core/loadEnvFileAndPrefix.js:5-10 | Values with the same text differ in their line breaks at most. |
| EnvFiles.KeyExactly | src/core/loadEnvFileAndPrefix.js:4 | Letters, digits, '.', '_' and '-' stay in a key, in their order, and nothing else does. |
| EnvFiles.PrintedReadBack | src/core/loadEnvFileAndPrefix.js:14-21 | The text of a whole environment file is read back pair by pair. |
| ParseDockerfile.ReportInstructions | src/lib/parseDockerfile.js:52-109 | The loop that moves its own index terminates, and its reports are right: a RUN with a here-document ends at the first later instruction that is its delimiter, every other report at its own line; each starts at the closest line with its keyword; and every instruction is reported, is a removed syntax comment, or lies in such a here-document. |
| ParseDockerfile.HereDocMerged | src/lib/parseDockerfile.js:93-106 | A here-document of three lines is reported as one instruction. |
| ParseDockerfile.FindStart | src/lib/parseDockerfile.js:78-83 | The backward search finds the closest line whose first word is the keyword, or line 0. |
| ParseDockerfile.FindHereDocClose | src/lib/parseDockerfile.js:41-50 | The search for the closing line of a here-document. |
| ParseDockerfile.ReportsDisjoint | src/lib/parseDockerfile.js:73-106 | The reported ranges are disjoint and increasing, each but a comment's starts at its keyword, and no merged part is reported again. |

## Left out

- CompilerCorrectness.CompilerCorrect: an INCLUDEd file with stages below the root may not refer to stages of its includer, and one parent may bring it in only once; nothing behind it may name its stages, which is where the code is right by `IncludedReferences.NestedIncludeExact`. A stage name that starts an external image is refused also where the image is used by `--from` only.
- PlainTrees.PlainTreeIsWritten: like all whole-tree theorems it asks for one slug and one target per used file and including file; `TwoLoads.SecondTargetExact` and `SecondCopyExact` say what two targets give.
- ScopeStages.ScopingIsRenaming: leaves out documents with a stage name that continues the prefix into a prefixed name, such as `p--b` under the prefix `p`.
- TwoLoads.SecondTargetExact: equal stages must have equal text, comments and ARGs included; for files without such lines `LeafLoads.SecondLeafExact` drops this.
- FROM flags such as `--platform`, numeric stage references, JSON-form arguments and ARGs with several names, which the code handles only in part.
- Text-level matching inside an instruction: `FROM base AS name`, `--from=` and mount options are fields of an instruction here, which is what the regular expressions give for names over [a-zA-Z0-9_-].
- A file's own global ARG scope when it also copies from a file: unshifting puts stages in front of those ARGs.
- The arithmetic of slugs and digests (MD5, SHA-256): uninterpreted functions with stated demands.
- Publication.NeverPartial: equality of the returned commit with the published directory after a lost race on a moving reference is not claimed; the code returns the loser's own commit.
- SanitizeStageNames.SanitizeStageName: names are text of single characters; a letter beyond ASCII whose lower case is an ASCII letter or takes two characters (U+212A, U+0130) becomes '_' here.
- Sparse checkouts (`ensurePath`), symbolic links, size limits, timeouts, redirects and the classification of addresses.
- The key under which fetches in flight are shared: a fetch has a key, the encoding of URL and headers is not part of this model.
- HttpCache.RunsAreCoherent: a write of the cache file is one atomic step, which `fs.writeFile` does not promise, so a file mixed from two writers is not covered; headers of the caller that replace the conditional ones are not modelled, and a date is a number.
- docker-file-parser, dotenv, axios, git and oras: their results are inputs with stated contracts.
- The Go frontend, the command line and the JSON form of errors.
