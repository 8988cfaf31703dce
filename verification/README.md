# Verification of the lossless context manager

A Dafny model of the parts of the repository whose correctness rests on an
invariant over runs, on an exactness argument or on a round trip, and proofs of
those properties. `dafny verify dfyconfig.toml` checks the whole project.

**Keyword prefilter** (`KeywordAutomaton`, `RegexLanguage`, `AnalysisWork`,
`AsciiCase`, `KeywordFolding`, `KeywordAnalysis`, `RequiredKeywords`). The
analyser that claims every match of a pattern contains a keyword is modelled with
its memo table, work counter and early-exit loops on the regex tree. It is proved
exact in both directions, it gives a verdict exactly within its limits, and the
prefilter that relies on it never skips a match. What it means to hold a keyword
is stated letter by letter in code points. The work of a tree on a set of states
is a function of its own, which the memo table does not change.

**Lazy prefixes** (`OrderedOutcomes`, `LazyPrefixCollapse`, `LazyPrefixProof`,
`LazyPrefixSites`, `LazyPrefixLimits`). Terms denote the ordered list of their
outcomes, as the matchers of section 22.2.2 of ECMA-262 try them. What the class
texts mean is a parameter. The rewrite of `X{0,A}?(?:X{0,B}?R)` keeps outcomes and
order, for every text and every reading of the other terms, exactly at the sites
where the inner bound is 0; or where both class texts denote the same characters,
the group has one alternative and runs exactly once; or where the outer class has
no characters and either the inner one has none or the group never runs. The
comment in the source claims this of every site the expression matches; at each of
the other sites a text is constructed on which the two forms differ. The
expression also matches a class text that merely ends with the inner class text,
such as `[x[a]` before `[a]`, where the rewrite is not sound. Which terms are
rewritten, and to what, is stated for every position in a regex.

**Compaction** (`CompactionStore`, `CompactionPass`, `FreshTail`, `OldestRun`,
`CompactionChoice`, `CompactionTotals`, `CompactionMeasures`, `CompactionSummary`,
`CompactionRuns`, `CompactionEngine`, `CompactionHistory`, `CompactionArrivals`,
`ReplayCandidate`). The engine is a class over the stored context and links; each
pass is one transaction that may fail. Over any run of passes, cut at any abort,
and over any interleaving with arriving messages, the context expands to exactly
the original messages in order; messages may also arrive between the choice of a
chunk and its commit. Counters, depths and the fresh tail are invariants as well.
A sweep hands back the record of its passes: each took the oldest run of its
store, and each but possibly the last lowered the stored count. The headers, the
scrubber, the summariser, the ids and the aborts are arbitrary answers of an
environment; every pass of a run stores the escalated text of its own chunk for
the answer it got.

**Codex rollouts** (`CutoffReader`, `TextLines`, `Json`, `LiveScan`,
`LiveMeaning`, `HistoryWindow`, `HistoryStops`, `HistoryVerdict`,
`HistoryReading`, `HistorySafety`, `RolloutParse`, `RolloutMessages`,
`ForkBoundary`, `RolloutGrowth`). What a verdict, a message or a boundary means is
stated in the fields of the records. Files are byte sequences; JSON parsing is an
arbitrary function, of which `RolloutGrowth` assumes only that white space alone
is no JSON text. UTF-8 decoding is an arbitrary function from the bytes of a line
to a text without newlines, applied line by line: a newline byte ends any sequence
before it and no other byte decodes to a newline. The reader of the cutoff record
also reads some records a little longer than the limit, up to the next chunk
boundary; `ReadCutoffOrdinal` states exactly which. `parseCodexTranscript` is
documented to give an empty array on any parse error, but a line that is the JSON
`null`, or a message with a `null` content block, throws; `ParseThrows` states
exactly when, for every kind of boundary.

**Cancellation and drain** (`Invocation`, `DrainRound`, `DrainReplies`,
`DrainRun`). A round is driven by a record of everything the environment answers:
replies lost, late, malformed or from another instance, time past or not, in any
combination. The endless retry loop is modelled over every finite run of rounds.
Managed restarts are logged, so that a started restart with no observed end counts
as unsettled, and the log of a run is determined by its replies: a healthy
original daemon that answers in time is never restarted.

**Worker pool and batch result** (`PoolHistory`, `WorkerPool`, `BatchResult`,
`BatchTotals`). Tasks move through claim, run, finish and retire in any order.
What the callbacks, the workers and the signal do is a parameter, so the outcome
of the pool is tied to it whatever order the steps take. The pool hands back the
history of its claims, settlements and waits, in which the limit is never exceeded
and no wait leaves it unused without a reason. The accounting is proved
independent of the completion order.

**Git config** (`GitBoolean`, `GitConfigLines`, `GitConfigSection`,
`GitConfigValue`, `GitConfig`, `GitConfigWorktree`, `GitConfigFlags`,
`GitConfigRoundTrip`). The lexer, the section and value parsers and the boolean
parser with their loops, against specifications for which rendering and reading
back is the identity, and of which it is proved which entries of a file decide its
worktree, its extension and its validity.

`Sequences`, `Options` and `Numerals` hold what the others share.

Methods carry the loops of the source and are proved against specification
functions; the lemmas are about those functions.

## Model

| member | source | states |
|---|---|---|
| KeywordAutomaton.FallbackIsLongest | scripts/update-gitleaks-patterns.ts:216 | dropping characters until a table prefix is left finds the longest suffix that is a keyword prefix |
| KeywordAutomaton.HitStep | scripts/update-gitleaks-patterns.ts:211-215 | whether a keyword ends at a text plus one character depends on the text only through its fallback state |
| KeywordAutomaton.FallbackStep | scripts/update-gitleaks-patterns.ts:211-218 | the next state computed from the state is the one the whole text would give |
| KeywordAutomaton.PrefixStep | scripts/update-gitleaks-patterns.ts:211-218 | a keyword or prefix that ends after one more character already ends at the fallback plus that character |
| KeywordAutomaton.RunTracksText | scripts/update-gitleaks-patterns.ts:207-219 | over any text the sink is entered exactly when a keyword has ended, and otherwise the state is the longest suffix that is a proper keyword prefix |
| RegexLanguage.ImageConcat | scripts/update-gitleaks-patterns.ts:234-236 | the states reached by a concatenation are those reached by one language after the other |
| RegexLanguage.ImageRepeat | scripts/update-gitleaks-patterns.ts:240-253 | the states reached by a repetition are the union of its admissible rounds |
| RegexLanguage.IterateStable | scripts/update-gitleaks-patterns.ts:241-245 | once one mandatory round changes nothing, no later round does, so the early exit is exact |
| RegexLanguage.RoundsStep | scripts/update-gitleaks-patterns.ts:247-250 | adding the image of everything collected so far adds exactly one more round |
| RegexLanguage.RoundsClosed | scripts/update-gitleaks-patterns.ts:247-252 | a round that adds nothing has reached every further round, bounded or not |
| RegexLanguage.RoundsAreImage | scripts/update-gitleaks-patterns.ts:246-253 | the collected rounds are the image of the repetition when the bound or a fixpoint is reached |
| KeywordAnalysis.KeyInjective | scripts/update-gitleaks-patterns.ts:209 | two transitions never share a memo key, although keys join a state and a character with NUL |
| KeywordAnalysis.Analyzer.Tick | scripts/update-gitleaks-patterns.ts:203-205 | each unit of work counts once, and the analysis stops exactly past the limit |
| KeywordAnalysis.Analyzer.Transition | scripts/update-gitleaks-patterns.ts:207-219 | a transition taken from or put into the memo table is the automaton's own; it costs one unit of work either way, and is refused exactly past the limit |
| KeywordAnalysis.Analyzer.Evaluate | scripts/update-gitleaks-patterns.ts:223-254 | the result is precisely the set of states reached by words of the node's language that hit no keyword; it takes exactly the work of the tree on the states, and fails exactly when that work exceeds the limit |
| KeywordAnalysis.Analyzer.EvaluateChars | scripts/update-gitleaks-patterns.ts:226-233 | the nested character loops compute the image of the class with one transition for each state and character |
| KeywordAnalysis.Analyzer.EvaluateSequence | scripts/update-gitleaks-patterns.ts:234-236 | folding over the children computes the image of the sequence, each child working on the states before it |
| KeywordAnalysis.Analyzer.EvaluateChoice | scripts/update-gitleaks-patterns.ts:237-239 | the union over the alternatives computes the image of the choice, each alternative working on the same states |
| KeywordAnalysis.Analyzer.RepeatExactly | scripts/update-gitleaks-patterns.ts:240-245 | the first loop with its early exit computes the image of exactly min rounds, with the work of the rounds up to the first that changes nothing |
| KeywordAnalysis.Analyzer.RepeatUpTo | scripts/update-gitleaks-patterns.ts:246-253 | the second loop terminates, also unbounded, and computes the image of the whole repetition, with the work of the rounds up to the first that adds nothing |
| RequiredKeywords.BuildAutomaton | scripts/update-gitleaks-patterns.ts:193-201 | a table of all proper prefixes is built exactly when it fits the state limit |
| RequiredKeywords.EmptyImageMeansRequired | scripts/update-gitleaks-patterns.ts:255-256 | no state survives if and only if every word of the language contains a keyword |
| RequiredKeywords.Analyze | scripts/update-gitleaks-patterns.ts:182-260 | a verdict is given exactly when the keywords are supported, their automaton fits the state limit and the work of the tree on it the work limit; verified means every word of the language holds a keyword with its capitals in lower case, and otherwise some word holds none |
| KeywordFolding.HoldsKeywordIff | scripts/update-gitleaks-patterns.ts:37 | a word of the folded keyword list occurs in a text exactly when the text holds a keyword letter by letter, with the capitals A to Z of the keyword 32 code points higher and every other character as it is |
| RequiredKeywords.SpellingIsRequired | scripts/update-gitleaks-patterns.ts:182-260 | a word without capitals is verified under every spelling of it as a keyword in which some letters stand 32 code points lower |
| RequiredKeywords.AbstractOccurrence | scripts/update-gitleaks-patterns.ts:175-181 | a keyword found in the abstract image of a piece of text occurs in the folded text |
| RequiredKeywords.OccurrenceSurvivesLowering | src/scrub.ts:610-616 | full lower-casing keeps every occurrence of an ASCII keyword found by ASCII folding |
| RequiredKeywords.PrefilterNeverSkipsAMatch | src/scrub.ts:610-619 | when every word of the analysed language holds a keyword, the prefilter never skips a text some substring of which is in the language |
| OrderedOutcomes.TriedAgain | scripts/update-gitleaks-patterns.ts:464-470 | in a list of backtracking outcomes, trying again what was tried just before changes nothing |
| OrderedOutcomes.FlatMapSame | scripts/update-gitleaks-patterns.ts:464-470 | equivalent outcome lists continued in equivalent ways stay equivalent |
| OrderedOutcomes.SameUnderContinuation | scripts/update-gitleaks-patterns.ts:464-470 | whatever the rest of a pattern accepts, equivalent lists succeed on the same outcome first |
| LazyPrefixProof.SplitPrefix | scripts/update-gitleaks-patterns.ts:467-470 | two adjacent lazy prefixes over one class have the same outcomes, in first-occurrence order, as one prefix with the summed bound |
| LazyPrefixProof.NestedAttempts | scripts/update-gitleaks-patterns.ts:472-475 | the nested form makes at most (A+1)(B+1) attempts |
| LazyPrefixProof.AttemptCounts | scripts/update-gitleaks-patterns.ts:472-475 | inside a run of the class the nested form makes exactly (A+1)(B+1) attempts and the collapsed one A+B+1 |
| LazyPrefixProof.RepeatSame | scripts/update-gitleaks-patterns.ts:480-486 | replacing the body of a quantified group by an equivalent one keeps its outcomes and their order |
| LazyPrefixProof.OnceSiteSame | scripts/update-gitleaks-patterns.ts:480-486 | a rewrite site whose class texts denote the same characters, with one alternative and a group run once, keeps all outcomes and their order |
| LazyPrefixProof.EmptySiteSame | scripts/update-gitleaks-patterns.ts:480-486 | a site whose inner prefix is {0,0}? keeps all outcomes and their order, whatever its classes, alternatives and quantifier |
| LazyPrefixProof.NoMembersSiteSame | scripts/update-gitleaks-patterns.ts:480-486 | so does a site whose outer class has no members, when the inner one has none either or the group never runs |
| LazyPrefixProof.CollapseKeepsOutcomes | scripts/update-gitleaks-patterns.ts:480-486 | a regex whose sites are all sound keeps all outcomes in backtracking order from every state |
| LazyPrefixProof.CollapseKeepsEveryMatch | scripts/update-gitleaks-patterns.ts:460-486 | on such a regex every search gives the same match before and after |
| LazyPrefixSites.SiteIsRewritten | scripts/update-gitleaks-patterns.ts:480-486 | every prefix followed by a plain group that opens with a prefix whose class text ends its own becomes one prefix with the summed bound, whatever stands behind it in the group, in other alternatives and after the group |
| LazyPrefixSites.OtherTermsPass | scripts/update-gitleaks-patterns.ts:480-486 | a term that starts no such pair stays where it is, and what follows it is rewritten as on its own |
| LazyPrefixSites.InsideIsRewritten | scripts/update-gitleaks-patterns.ts:480-486 | a group stays a group of its kind and quantifier, with each alternative rewritten as on its own |
| LazyPrefixSites.SiteIsRewrittenAfter | scripts/update-gitleaks-patterns.ts:480-486 | so a pair is rewritten after any terms before it that start none |
| LazyPrefixSites.AttemptsDrop | scripts/update-gitleaks-patterns.ts:472-475 | about the prefixes of the regex before and after the rewrite: (A+1)(B+1) attempts inside a run of the class become A+B+1 |
| LazyPrefixLimits.UnsoundSiteDiffers | scripts/update-gitleaks-patterns.ts:467-470 | whatever the class texts mean, at every site that is not sound a text and a reading of the other terms tell the rewritten regex from the original |
| LazyPrefixLimits.SoundExactly | scripts/update-gitleaks-patterns.ts:467-470 | a site may be rewritten, for every text and every reading of the other terms, if and only if it is sound |
| LazyPrefixLimits.FarSiteDiffers | scripts/update-gitleaks-patterns.ts:467-470 | a site with another alternative, an optional group or a character that only the outer class has reaches farther after the rewrite |
| LazyPrefixLimits.NearSiteDiffers | scripts/update-gitleaks-patterns.ts:467-470 | a site with a character that only the inner class has loses the match of that character before the rest |
| LazyPrefixLimits.RepeatedSiteDiffers | scripts/update-gitleaks-patterns.ts:467-470 | a site whose group may run again loses a match after the rewrite, even for a class of all characters |
| CompactionStore.ExtendsExpandAll | src/compaction.ts:1028-1085 | adding summaries never changes what stored references expand to |
| CompactionPass.CommitReplacesChunk | src/store/summary-store.ts:653-711 | the range of a chunk becomes one reference to the new summary and every other reference keeps its place |
| CompactionPass.CommitKeepsStore | src/store/summary-store.ts:413-441 | a commit keeps every message, summary and link that was stored |
| CompactionPass.NewNodeStratified | src/compaction.ts:1193-1285 | the new summary has only messages below it at depth 0, and only summaries of the depth just below it otherwise |
| CompactionPass.CommitKeepsConversation | src/compaction.ts:1273-1285 | expanding the context gives the same messages in the same order before and after a commit |
| CompactionPass.CommitKeepsValid | src/compaction.ts:1349-1420 | a commit keeps the whole invariant: ordinals, links, depths, distinct messages, and counters that equal the true numbers and token sums strictly below each summary |
| FreshTail.TailStartUnique | src/compaction.ts:733-748 | the tail start is the only boundary with that many messages after it that starts at a message |
| FreshTail.ProtectedByOrdinal | src/compaction.ts:733-748 | comparing ordinals with the fresh-tail ordinal protects exactly the items from the tail start on |
| FreshTail.ReplacementKeepsTail | src/compaction.ts:733-748 | a replacement before the boundary leaves the recomputed tail with the same items in the same order |
| OldestRun.OldestRunUnique | src/compaction.ts:796-846 | the oldest run of eligible items within a token budget is unique |
| OldestRun.FindsOldestRun | src/compaction.ts:1028-1085 | the selection loop's specification finds that run |
| CompactionMeasures.CondensedMinimum | src/compaction.ts:976-980 | the condensed minimum is the larger of the configured target and a tenth of the leaf chunk rounded down |
| CompactionMeasures.RawTokensAre | src/compaction.ts:769-794 | the raw tokens of items are the tokens of the messages among them, each its own count or a quarter of its characters |
| CompactionMeasures.SweepIsNeeded | src/compaction.ts:465-475 | the gate of a sweep opens when it is forced, when the stored tokens exceed the threshold or when the messages outside the fresh tail fill a leaf chunk |
| CompactionMeasures.PassChangesTokens | src/compaction.ts:1265-1285 | a pass takes the stored counts of its chunk from the context's tokens and adds the count of its summary |
| CompactionMeasures.LowersIff | src/compaction.ts:547-550 | a pass lowers the stored tokens exactly when its summary counts less than its chunk |
| CompactionEngine.Engine.CountRawTokensOutsideFreshTail | src/compaction.ts:769-794 | the raw token count is the sum over unprotected messages |
| CompactionEngine.Engine.SelectOldestLeafChunk | src/compaction.ts:796-846 | the selected chunk is the oldest run of unprotected messages within the chunk budget |
| CompactionEngine.Engine.SelectOldestChunkAtDepth | src/compaction.ts:1028-1085 | the selected chunk is the oldest run of unprotected summaries of one depth within the budget |
| CompactionEngine.Engine.SummarizeWithEscalation | src/compaction.ts:1137-1191 | the text is the summariser's normal answer if that is shorter in tokens than the scrubbed source, otherwise its aggressive answer if that is, otherwise the first 2048 characters with the number of tokens; an empty source gives the fixed mark |
| CompactionEngine.Engine.CommitPass | src/compaction.ts:1273-1285 | a pass commits one whole transaction, or, exactly when the new id is taken, changes nothing |
| CompactionEngine.Engine.LeafPass | src/compaction.ts:1193-1285 | a leaf pass replaces exactly its chunk of messages by a depth-0 summary linked to them in order, or changes nothing; the summary stores the escalated text of the chunk's messages for what the environment answered when it was asked, with its token count and under its id |
| CompactionEngine.Engine.CondensedPass | src/compaction.ts:1292-1420 | a condensed pass replaces exactly its chunk of same-depth summaries by one a depth higher, with the accumulated counters and the escalated text of the chunk's summaries for what the environment answered, or changes nothing |
| CompactionEngine.Engine.CandidateAt | src/compaction.ts:995-1026 | the chunk is the oldest run at the depth, and it is offered exactly when it meets the fanout and the token minimum |
| CompactionEngine.Engine.SelectShallowestCondensationCandidate | src/compaction.ts:985-1026 | the depth returned is eligible, no shallower one is, and the chunk is its oldest run; none is returned only when no depth is eligible |
| CompactionEngine.Engine.LeafRound | src/compaction.ts:500-530 | a round of phase 1 that passes took the oldest run of raw messages outside the tail; with nothing to take no raw item is left there, and only an abort or a taken id cuts it |
| CompactionEngine.Engine.CondensedRound | src/compaction.ts:557-584 | a round of phase 2 that passes took the oldest run of the shallowest eligible depth; with nothing to take no depth is eligible |
| CompactionEngine.Engine.LeafPhase | src/compaction.ts:499-554 | phase 1 terminates; its passes lead from the store before it to the one after it, each on the oldest raw run of its store, and each but possibly the last lowers the stored token count; it is done only with no raw item left outside the tail or at a pass that failed to lower the count |
| CompactionEngine.Engine.CondensedPhase | src/compaction.ts:556-606 | the same for phase 2 on the shallowest eligible depth, its first pass held against the count phase 1 accepted; it is done only without a candidate or at a pass that failed to lower the count |
| CompactionEngine.Engine.CompactFullSweep | src/compaction.ts:448-620 | a sweep is phase 1 followed by phase 2 wherever it is cut, reports the true counts and whether a pass was made, makes none below the thresholds unless forced, and when it completes both phases ran out of work or stopped at a pass that failed to lower the count; without aborts it completes |
| CompactionEngine.Engine.CompactLeaf | src/compaction.ts:316-446 | the incremental pass is at most one leaf pass and then one condensed pass per depth from 0 on; it acts exactly when it says so, a needed one that does nothing found no raw item outside the tail, and the climb ends at the depth limit, an ineligible depth or a pass that did not lower the count |
| CompactionEngine.Engine.CompactUntilUnder | src/compaction.ts:625-700 | below the target nothing is done; otherwise the final tokens are the stored ones, the flag says whether they meet the target, the rounds are whole sweeps of which all but the last progressed and stayed over it, and it fails only after the last round or at a sweep without progress |
| CompactionRuns.PassKeeps | src/compaction.ts:1028-1085 | one pass keeps the conversation, all messages, every earlier summary with its links, and the fresh tail |
| CompactionRuns.RunKeeps | README.md:79 | losslessness over runs: after any passes, cut anywhere between transactions, the context expands to the same messages in the same order, and the fresh tail stays in place |
| CompactionRuns.EachAnswered | src/compaction.ts:1219-1239 | every pass of a phase stored what the environment answered for the store and the time of that pass |
| CompactionRuns.LeadsConcat | src/compaction.ts:448-620 | runs compose, so sweeps, rounds and histories are runs of passes |
| CompactionRuns.EachLowers | src/compaction.ts:547-550 | in a phase that is still improving every single pass lowered the token count |
| CompactionRuns.FirstIsBelow | src/compaction.ts:600-606 | and its first pass got below the count accepted before the phase |
| CompactionRuns.PhaseKeeps | src/compaction.ts:499-606 | a phase keeps what every run keeps, wherever it stopped |
| CompactionRuns.SweepsLead | src/compaction.ts:625-700 | any number of sweeps is one run of passes, so everything a run keeps is kept |
| CompactionArrivals.TailStartAdvances | src/compaction.ts:733-748 | the fresh tail never starts earlier after one more message |
| CompactionSummary.SameSources | src/compaction.ts:1219-1239 | a summary's text depends on the stored contents of its sources alone |
| CompactionArrivals.CommitAfterArrivals | src/compaction.ts:1193-1285 | a chunk selected and summarised before messages arrived still commits, by its old ordinals and with the text written for it, as a whole pass over the same items, and the context then expands to the old conversation followed by the arrivals |
| CompactionHistory.IngestKeepsValid | src/store/summary-store.ts:599-617 | appending a message keeps the invariant and appends it to the expanded conversation |
| CompactionHistory.HistoryIsLossless | README.md:79 | over any interleaving of arriving messages and compaction runs the context expands to exactly the first conversation followed by all arrivals, without duplicates |
| CompactionHistory.SourceTokensOfContext | src/compaction.ts:1241-1263 | the raw tokens and source counters of a context add up to the tokens of the messages it stands for |
| CompactionHistory.RunConservesSourceTokens | src/compaction.ts:1390-1398 | the source tokens accounted for by the context are the same after any run |
| ReplayCandidate.HasReplayCondensationCandidate | src/batch-compact.ts:209-243 | the nested loops answer whether some depth has a run worth condensing |
| ReplayCandidate.FindIgnoresOthers | src/batch-compact.ts:224-236 | the token counts of rows of other depths do not matter |
| ReplayCandidate.DepthAgrees | src/batch-compact.ts:220-241 | discovery and engine agree depth by depth, tail boundary included |
| ReplayCandidate.ReplayAgreesWithEngine | src/batch-compact.ts:209-243 | with the manual constants and no hard trigger discovery offers a conversation exactly when the engine's selection finds a candidate |
| CutoffReader.LastLineFound | src/codex-transcript.ts:682-688 | the forward definition finds the last line whatever whole lines come before it and blanks after it |
| CutoffReader.NoLineInBlanks | src/codex-transcript.ts:682-688 | it finds nothing in blank text |
| CutoffReader.SuffixDecides | src/codex-transcript.ts:698-708 | a suffix holding a newline before the last line has the same last line as the whole file |
| CutoffReader.SuffixUndecided | src/codex-transcript.ts:698-708 | a suffix that does not is no longer than the last line with its blanks |
| CutoffReader.ReadCutoffOrdinal | src/codex-transcript.ts:693-716 | for every chunk size the backward reader gives the ordinal of the forward definition, or nothing exactly when the line with its blanks fills the first chunk boundary past the limit |
| CutoffReader.FitsIsRead | src/codex-transcript.ts:709 | a record within the limit never fills that window, so it is always read |
| TextLines.LinesOfConcat | src/codex-transcript.ts:178-187 | lines of a text joined at a newline are the lines of its halves |
| TextLines.JoinOfLines | src/codex-transcript.ts:178-187 | no line holds a newline, and joining the lines gives the text back |
| LiveScan.ScanMeansLive | src/codex-transcript.ts:464-474 | the scan answers whether a marker, or the proof carried in, is followed by no reset |
| LiveScan.ScanConcat | src/codex-transcript.ts:801-820 | scanning one text after another is scanning their lines in one go |
| LiveScan.ScanMonotone | src/codex-transcript.ts:475-503 | each line's change is monotone: a better start never ends worse |
| LiveScan.ScanRecord | src/codex-transcript.ts:487-500 | the branches on a record are its reset, prove or inert effect |
| LiveScan.ScanLiveCodexRestoration | src/codex-transcript.ts:475-503 | the loop computes the scan, with blank lines inert and malformed ones a reset |
| LiveMeaning.LineMeans | src/codex-transcript.ts:451-503 | a line drops the context exactly when it is malformed, a compacted record or a rollback event, and restores it exactly when it is a developer message whose text opens with the marker alone on its line |
| LiveMeaning.LiveMeansRestored | src/codex-transcript.ts:446-503 | a rollout is live exactly when some such developer message is followed by no line that drops the context |
| HistoryWindow.ValidateAncestor | src/codex-transcript.ts:771-792 | a link is accepted exactly when the parent is no repeat, is long enough, has a session_meta, can be read and carries the ordinal just before the end |
| HistoryWindow.ResolveHistorySegments | src/codex-transcript.ts:732-769 | the loop computes the walk that keeps a parent while its link holds and budget, file and repeat limits allow |
| HistoryWindow.KeptIsNewestSuffix | src/codex-transcript.ts:718-731 | the ranges are a contiguous newest suffix of linked, pairwise different files within the byte budget and four files; only the oldest is clipped, and only when the budget is used up |
| HistoryStops.StopsForAReason | src/codex-transcript.ts:718-792 | the walk ends only without a parent, with the byte budget or the file limit used up, at a repeated id, where no file is located, or at a parent that is kept already, unreadable, too short, without a session_meta or without the ordinal just before the end |
| HistoryVerdict.ReadSegmentText | src/codex-transcript.ts:795-804 | a clipped range drops its first partial line |
| HistoryVerdict.ReadTexts | src/codex-transcript.ts:806-817 | the texts read are those of the newest readable ranges |
| HistoryVerdict.ScanHistorySegments | src/codex-transcript.ts:805-823 | the verdict is the scan of those texts, oldest first, from no proof; a rollout that cannot be read itself gives none |
| HistoryVerdict.EarlierStartClaims | src/codex-transcript.ts:795-804 | of two ranges with the same end, the one that starts earlier proves whenever the other does |
| HistoryVerdict.FurtherClaimsMore | src/codex-transcript.ts:806-823 | a window that reaches further back proves whenever a shorter one does |
| HistoryReading.LinesAfterFirst | src/codex-transcript.ts:795-804 | what a clipped range keeps are its lines after the first, and nothing when it has one line only |
| HistoryReading.VerdictMeansRestored | src/codex-transcript.ts:795-823 | a history is live exactly when, in the lines of the newest ranges up to the first that cannot be read, a developer message restores the context and no later line drops it |
| HistorySafety.ReadLiveCodexRestoration | src/codex-transcript.ts:825-868 | the answer is live exactly when the rollout opened and could be read and the verdict on the walk's ranges is live |
| HistorySafety.NeverOverclaims | src/codex-transcript.ts:806-823 | a live verdict holds of the whole history too, whatever older history was not kept, not readable or clipped |
| HistorySafety.LargerBudgetClaimsMore | src/codex-transcript.ts:718-769 | a larger byte budget keeps the same newest ranges and more, and never loses a live verdict |
| RolloutParse.CheapTestIsSafe | src/codex-transcript.ts:182-183 | the cheap length test in front of the byte count never changes which lines are oversized |
| RolloutParse.NativeSourceLines | src/codex-transcript.ts:178-187 | the counted lines are the oversized ones and those with a visible character, numbered from 0 |
| RolloutParse.FirstSessionMetaPayload | src/codex-transcript.ts:256-273 | only the first line that is not blank is consulted |
| RolloutParse.ReadCopiedForkBoundary | src/codex-transcript.ts:206-234 | the loop finds the first settings event that names the fork's own thread, or gives up at one that names none |
| RolloutParse.ReadCodexInheritedBoundary | src/codex-transcript.ts:155-163 | a valid subagent ordinal wins; anything else falls through to a copied fork |
| RolloutParse.ParseCodexCopiedForkMessages | src/codex-transcript.ts:325-340 | the loop collects the messages of counted lines from the boundary on |
| RolloutParse.ParseCodexTranscriptText | src/codex-transcript.ts:341-370 | the loop collects the messages of response items that are not inherited, or throws at the first line that cannot be read |
| RolloutMessages.MessageComesBack | src/codex-transcript.ts:307-322 | a response item with a message of a role and text blocks is parsed as that role and the joined non-empty texts of its three text kinds, trimmed, with a token for every four code units begun; as nothing for another role or without text |
| RolloutMessages.OrdinalDecides | src/codex-transcript.ts:276-283 | at an ordinal boundary an item is skipped exactly below it, or without a safe ordinal in a paginated history |
| RolloutMessages.RolloutComesBack | src/codex-transcript.ts:341-370 | a rollout written from messages is parsed as these messages in order |
| ForkBoundary.ForkBoundaryIs | src/codex-transcript.ts:206-234 | for a first record with its own id, another forked_from_id and no history_base the boundary is the first settings event of the own thread, none after one that names no thread, and pending without either; nothing else decides |
| ForkBoundary.NoForkNoBoundary | src/codex-transcript.ts:206-226 | any other first record has no copied history |
| ForkBoundary.OwnItemsCount | src/codex-transcript.ts:291-303 | in a copied fork an item is inherited exactly before the boundary, and always while it is pending |
| ForkBoundary.SubagentBoundaryIs | src/codex-transcript.ts:155-163 | the boundary is an ordinal exactly when the first record that is not blank is a session_meta with a safe one, which wins over a copied fork |
| RolloutGrowth.FirstMetaOfConcat | src/codex-transcript.ts:256-273 | the first session_meta of a longer text is the shorter one's unless that was blank |
| RolloutGrowth.VisibleIsCounted | src/codex-transcript.ts:178-187 | a line that trimming leaves visible is counted by the native reader |
| RolloutGrowth.BoundaryAdvances | src/codex-transcript.ts:206-234 | once a line shows, further lines only resolve a pending fork, beyond the lines already counted |
| RolloutGrowth.DeterminedBoundaryStays | src/codex-transcript.ts:155-163 | a determined boundary of a newline-terminated text never moves as the file grows |
| RolloutGrowth.AppendOnly | src/codex-transcript.ts:325-370 | appending to a newline-terminated rollout only appends messages: the shorter parse is a prefix of the longer one, with and without the inherited history, except that a line no parse can read makes it throw |
| RolloutGrowth.ParseThrows | src/codex-transcript.ts:325-370 | exactly when a parse throws: without a fork, when a line is the JSON null or a message with a null content block that is not inherited by its ordinal; in a copied fork, when a counted line from the boundary on is such a message; in a pending fork never |
| RolloutGrowth.NullLineThrows | src/codex-transcript.ts:97-105 | a concrete input on which the documented empty array is not returned |
| Invocation.Lifecycle.Send | bin/lcm.ts:390-396 | the invocation counts as possibly registered before the request leaves, with its uncertainty deadline |
| Invocation.Lifecycle.Receive | bin/lcm.ts:397-413 | only an active snapshot bound to the target confirms a start; any other reply, or none, leaves it possibly registered |
| Invocation.SignalHandlers.BeginDrain | bin/lcm.ts:491-508 | only the first event begins a drain and aborts |
| Invocation.SignalHandlers.Receive | bin/lcm.ts:509-520 | a signal latches a status once |
| Invocation.HandleAll | bin/lcm.ts:478-551 | over any sequence of signals and automatic drains one drain is begun and the first signal's status stays |
| DrainRound.RetryOnSameInstance | bin/lcm.ts:738-789 | health and retry run when something is open and there is time or an uncertain start, and set the zero proof as specified |
| DrainRound.ProveReplacement | bin/lcm.ts:800-847 | a replacement is verified exactly with the old instance and its providers gone and a healthy daemon of another identity with the expected storage and runtime |
| DrainRound.ProvedHasEvidence | bin/lcm.ts:641-921 | a round that reports the invocation drained holds evidence of its own |
| DrainRound.EvidenceIsSeen | bin/lcm.ts:702-789 | the target's zero snapshot, or the original daemon's answers given in time, always end the drain |
| DrainReplies.ZeroRepliesAre | bin/lcm.ts:268-289 | a cancellation proves the drain with exactly two replies: the target's own snapshot, cancelled or finished, with all three counts zero |
| DrainReplies.ReplacementsAre | bin/lcm.ts:800-847 | the fields of the replies that prove a replacement: the old process and its providers gone, and a healthy daemon with another id, the expected storage and the command's own runtime digest |
| DrainReplies.LostStartsAre | bin/lcm.ts:738-789 | the fields of the replies that prove that a start never arrived |
| DrainRound.OriginalIsNotRestarted | bin/lcm.ts:872-876 | a round in which the original daemon answers in time and healthy starts no managed restart |
| DrainRound.UnprovedStartsRestart | bin/lcm.ts:872-876 | a round that is asked in time and proves nothing starts one, where one is allowed and none was attempted, exactly when the original daemon did not answer so |
| DrainRound.LateStartsRestart | bin/lcm.ts:738-876 | out of time it starts one whatever health would say, unless the start is uncertain and unknown to the daemon |
| DrainRun.Drain.AwaitRestart | bin/lcm.ts:849-871 | a restart that settles with a value is kept, one that settles without gives its admission back, one still out stays pending |
| DrainRun.Drain.StartRestart | bin/lcm.ts:872-905 | a restart is recorded as attempted before it is waited for |
| DrainRun.Drain.CancelAndDrain | bin/lcm.ts:641-921 | the round proves the drain, changes the session and reports the restart exactly as specified for its replies; it adds exactly its own events to the log, no start when the original daemon answers in time, and one start when it is not proved, may restart, attempted none and the original did not answer |
| DrainRun.Drain.DrainUntilProved | bin/lcm.ts:931-946 | over any finite run of replies, late start replies included, the loop returns at the first round that proves the drain and at no other, and the log holds exactly the events of the rounds up to it |
| DrainRun.HealthyIsNeverRestarted | bin/lcm.ts:849-905 | a run in which the original daemon answers every round in time and healthy starts no restart |
| DrainRun.ReturnsOnEvidence | bin/lcm.ts:931-946 | the drain returns only on evidence of its final round: never sent; or, with local work settled, a target-bound zero snapshot, an expired start twice unknown to the same instance, or a proved replacement |
| DrainRun.SentStaysRegistered | bin/lcm.ts:382-414 | an invocation whose start was sent stays possibly registered whatever replies arrive |
| DrainRun.AtMostOneUnsettled | bin/lcm.ts:849-905 | at every moment of a run at most one managed restart is unsettled |
| DrainRun.SuccessIsLast | bin/lcm.ts:849-905 | after a restart succeeded none is started or awaited again |
| WorkerPool.StartAccounted | src/batch-compact.ts:134-170 | claiming the next index keeps claimed indexes equal to completed, active and refused ones |
| WorkerPool.RefuseAccounted | src/batch-compact.ts:144-150 | an index whose onClaim throws is claimed but never becomes active |
| WorkerPool.SettleAccounted | src/batch-compact.ts:151-165 | a settled index is completed once, stays active until its task ends, and its onResult may set the error |
| WorkerPool.IdleAccounted | src/batch-compact.ts:173-178 | with nothing active an error is held exactly when a callback of a claimed index threw, and otherwise every claimed index has completed |
| WorkerPool.Pool.Claim | src/batch-compact.ts:134-171 | indexes are claimed in order, at most once, within the limit, and none after an abort or callback error |
| WorkerPool.Pool.Step | src/batch-compact.ts:151-168 | any step of any active task keeps the invariant |
| WorkerPool.Pool.AwaitRace | src/batch-compact.ts:175 | waiting for any one task admits every interleaving of steps in between |
| WorkerPool.Pool.Drain | src/batch-compact.ts:173-177 | the pool ends with nothing active, with items unclaimed only after an abort or error |
| WorkerPool.RunBatchWorkerPool | src/batch-compact.ts:120-180 | for every order of steps: the history it hands back is lawful, so never more than the limit are in flight; it fails exactly when a callback of a claimed index threw; otherwise the completions are exactly the claimed prefix, each once with its worker's outcome; it is everything unless the signal aborted, nothing when it had aborted before, and at least one item when it had not |
| PoolHistory.NeverOverLimit | src/batch-compact.ts:134-171 | at every moment of a lawful history the claims minus the refused and retired ones are at most the limit |
| PoolHistory.FullWhileWaiting | src/batch-compact.ts:173-177 | whenever the pool waits, they are exactly the limit, or everything is claimed, or the signal aborted or a callback threw before |
| BatchResult.Batch.OnResult | src/batch-compact.ts:791-984 | one result moves exactly one counter, and a compacted one its sums and project |
| BatchResult.Batch.CompactedProjects | src/batch-compact.ts:1001-1004 | the projects are listed by their recorded index |
| BatchResult.TallyIgnoresOrder | src/batch-compact.ts:791-984 | every completion order gives the same counters and project map |
| BatchResult.CountersPartition | src/batch-compact.ts:791-984 | the outcome counters add up to the completions |
| BatchTotals.OneAdds | src/batch-compact.ts:804-984 | which counter each kind of answer moves, and by what a compacted session moves the sums of messages and tokens |
| BatchTotals.TallyAdds | src/batch-compact.ts:791-984 | every counter is the number of completions of its kind, and every sum the sum over the compacted ones |
| BatchResult.ProjectsAreEarliest | src/batch-compact.ts:946-952 | the map holds exactly the projects with a compacted session, each with its smallest discovery index |
| BatchResult.ProjectsInjective | src/batch-compact.ts:1001-1004 | distinct indexes give distinct projects distinct places, so their order is total |
| BatchResult.ResultIgnoresOrder | src/batch-compact.ts:995-1005 | the whole result depends on what completed, not on when |
| GitBoolean.Accumulate | src/git-project.ts:571-589 | the bounded accumulator is defined exactly for digits of the base whose value fits the limit, and never exceeds it |
| GitBoolean.FitsIffGuard | src/git-project.ts:580-587 | the guard before a step rejects exactly the step that would exceed the limit, also when limit minus digit is negative |
| GitBoolean.ParseGitBooleanInteger | src/git-project.ts:532-590 | the integer is defined exactly when magnitude times unit fits a signed 32-bit integer, and then answers whether it is nonzero |
| GitBoolean.RenderedInteger | src/git-project.ts:532-590 | an integer of any size written in octal, decimal or hexadecimal, with leading spaces, sign, letters of either case and a unit, is read as that integer in that unit exactly when it fits a signed 32-bit integer |
| GitBoolean.NamedWords | src/git-project.ts:592-601 | true, yes and on, false, no, off and the empty text are read in any letter case |
| GitBoolean.ParseGitBoolean | src/git-project.ts:592-601 | the named words are recognised in any ASCII case before integers |
| GitConfigLines.ScanPhysicalConfigLine | src/git-project.ts:603-627 | a line continues exactly when it ends in an escape outside a comment |
| GitConfigLines.LogicalConfigLines | src/git-project.ts:629-659 | the loop joins continued lines and rejects continued section lines and an unfinished last one |
| GitConfigLines.SpliceKeepsLines | src/git-project.ts:603-659 | a backslash and newline inserted outside an escape and a comment leave all logical lines as they were, and the file as valid as it was unless they continue a line that opens a section |
| GitConfigSection.ParseSectionName | src/git-project.ts:661-744 | the scan of a header gives its lower-case name, whether it has a subsection, and its end, or rejects it |
| GitConfigSection.PlainHeaderRead | src/git-project.ts:661-705 | a plain header names its section whatever follows it |
| GitConfigSection.DottedHeaderRead | src/git-project.ts:661-715 | a header with a dotted subsection names its base and no plain section |
| GitConfigSection.SubsectionHeaderRead | src/git-project.ts:706-744 | a quoted subsection with any brackets, quotes and backslashes is one header and names no plain section |
| GitConfigValue.ParseConfigValue | src/git-project.ts:746-791 | the loop reads a value with its escapes, quotes, comment and outer white space |
| GitConfigValue.QuotedRoundTrip | src/git-project.ts:746-791 | any text rendered in quotes is read back |
| GitConfigValue.PlainRoundTrip | src/git-project.ts:746-791 | a plain text is read back without the white space around it and a comment after it |
| GitConfig.ParseEntry | src/git-project.ts:831-860 | keys, include paths, missing and malformed values are treated as specified |
| GitConfig.ParseGitConfig | src/git-project.ts:793-896 | the loop reads the logical lines in order, sections carried from line to line |
| GitConfigWorktree.OtherKeys | src/git-project.ts:855-887 | an entry of any other key changes nothing, except that a value that cannot be read makes the file invalid |
| GitConfigWorktree.LineKeeps | src/git-project.ts:855-887 | a line changes the worktree exactly when it is an entry of core.worktree, and takes no flaw back |
| GitConfigWorktree.FlawsStay | src/git-project.ts:804-896 | a file that a line made invalid stays invalid, and a worktree key once seen or an extension once unreadable stays so |
| GitConfigWorktree.WorktreeOfFile | src/git-project.ts:793-896 | a worktree is reported exactly when some line of the file is an entry of core.worktree, and its value is the text of the last such entry that has one |
| GitConfigFlags.LineFlags | src/git-project.ts:793-887 | what each line does to the flags: a fault makes the file invalid, an entry of extensions.worktreeConfig turns it on or off or garbles it, and nothing else does |
| GitConfigFlags.FlagsOfLines | src/git-project.ts:793-896 | over all lines the last entry that turns worktreeConfig decides it, and one garbled entry makes it off for good |
| GitConfigFlags.FlagsOfFile | src/git-project.ts:793-896 | a file is valid exactly when its lines are well formed and none is a fault; an include.path or includeIf.path entry is one |
| GitConfigRoundTrip.SplicesVanish | src/git-project.ts:629-659 | continuations between the escaped characters of a value change no logical line |
| GitConfigRoundTrip.SplicedConfigRead | src/git-project.ts:793-896 | one section with one quoted entry is read as that entry, wherever its value is continued |
| GitConfigRoundTrip.WorktreeRoundTrip | src/git-project.ts:603-896 | any path under core.worktree comes back, whatever characters it holds and wherever its value is continued |

## Left out

- Regex parsing: `parse` and `characters()` in scripts/update-gitleaks-patterns.ts, which build the tree from text and ask the RegExp engine for character sets; the model starts from the tree.
- The collapse is modelled on regex terms; the textual search of the source is modelled only as far as the class text before the first prefix may end with the inner class text. Sites that only look like a regex term inside an escape are not modelled.
- CutoffReader.ReadCutoffOrdinal: reads are assumed to return the whole range; a file that shrinks meanwhile is not modelled.
- DrainRun.Drain.DrainUntilProved: states nothing about reaching the evidence, because the environment may withhold it for ever.
- Event messages of the engine (persistCompactionEvents) are assumed not to enter the context.
- SQL of the stores: the transactions are modelled by their effect on context items and links.
- The summariser, the scrubber, the headers of sources and the id function are arbitrary; the prompts, the previous summary they may be given, and the times and file ids stored beside a summary are not modelled.
- Token estimates in the compaction model count characters, where the source counts UTF-16 code units; the rollout model counts code units.
- Lone surrogates: Dafny characters are Unicode scalar values.
- File, descriptor, directory and identity checks: locating and opening a rollout is an arbitrary function with a directory budget; readHistoryBase is an arbitrary function of the bytes.
- Heartbeats, timers and promise plumbing of the lifecycle; each bounded wait is one outcome: settled, failed or timed out.
- Diagnostics, progress output and rendering in the drain and the batch.
- Two sessions draining the same daemon at once.
- The rest of src/git-project.ts: topology, inode and include checks.
- Retrieval, scrubbing patterns, importers, command line, configuration, installer and daemon routes: they would add only easy members.
