# Proofs about guardcore

Dafny models of the parts of guardcore that decide something, with proofs of what those parts promise. Each
module follows one component; its opening comment names the source files. Code that loops and assigns is
modelled by methods and classes, and each method is proved against a function that says what it computes;
theorems about whole inputs, trees and runs are lemmas about those functions.

## The components

**ReDoS front end.** `Intervals` is the code-point interval algebra. `RegexSyntax`, `RegexGrammar`,
`RegexCharSets` and `RegexParser` are the regular-expression parser: the grammar as functions, the parser
object with its position, group table and flags as a class that agrees with them. `RegexWellFormed` proves
the shape of every tree it returns, `RegexRender`, `RegexRoundTrip` and `RegexReparse` that canonical texts
and rendered patterns parse back, `RegexVerbose` where branches end when blanks are skipped.
`AlphabetRegions`, `Alphabet` and `PatternAlphabet` are the slots of a pattern, the splitting of its repeated
alphabet, and what that has to do with the characters its nodes match. `Terminator` holds the two terminator
walks, `ReachProbe` the probe synthesiser with its threaded state, `PatternStructure` what its scans for
group ends and top-level bars find.

**Bodies and paths.** `HeaderParams`, `Multipart`, `MultipartRoundTrip` and `MultipartFaults` are the
multipart scanner with nested containers. `JsonWalk` is the walk over a parsed document with its frame
stack, `JsonText` and `JsonReadBack` the compact text of cut containers, `JsonExclusions` what the walk shows
of excluded fields. `PathMatch` is path normalisation and the exclusion test.

**Managers with state.** `RateLimit` (list in memory, sorted set), `IPBan`, `PerformanceMonitor` with the
shared `KeyOrder`, `DynamicRules` (snapshots and expiry), and `Pipeline`, where mutations and rebuilds
interleave step by step.

**Scanners and identity.** `Backtracking` defines what a backtracking engine finds, and `Finders` holds the
hand-written scanners to it. `ForwardedChain` resolves the client behind proxies. `Texts` has the text
helpers that the parsers share.

## Where the code and its documentation part

Each of these has a lemma with a concrete input, and one that says when the code does what is expected.

- A multipart part whose header block reaches the end of the body ends in a slice past the end
  (`MultipartFaults.ScanFaults`, `MultipartFaults.OpenBoundaryFaults`).
- Numbers are recognised loosely when a cut container is written, so that dates and version numbers lose
  their quotes (`JsonReadBack.SerializeReadsBack`, `JsonReadBack.DateLosesQuotes`).
- Excluded fields below the depth cap are part of the text that is scanned
  (`JsonExclusions.ExcludedFieldsUnseen`, `JsonExclusions.PasswordShown`).
- The backtick scanner takes letters and digits outside ASCII that its expression does not list
  (`Finders.DocumentedBacktick`, `Finders.LetterOutsideAscii`).
- In verbose mode a bar with blanks before it is a literal when the blanks follow a quantifier, a comment or
  flag group, or the start of a branch; behind an atom it separates (`RegexVerbose.BarSeparatesExactly`,
  `RegexVerbose.StarredBar`, `RegexVerbose.UnstarredBar`).
- The slots of a pattern take the sets of characters and dots from its final flags, so that a repeated dot
  under scoped flags has no fill for a line break it matches (`PatternAlphabet.SlotsOwnExactly`,
  `PatternAlphabet.ScopedDotUnfilled`).
- Under ignore-case a class comes back from its canonical text with case variants added unless it is closed
  under those the parser looks up (`RegexRoundTrip.RoundTrip`, `RegexRoundTrip.ClassGainsCase`).
- The raw text of an embedded document is scanned with its excluded fields behind the walk that leaves them
  out (`JsonExclusions.EmbeddedShown`, `JsonExclusions.EmbeddedPassword`).
- A rule application that is rolled back restores the fields without a new revision, so a rebuild that
  overlaps it can publish values nobody configured (`Pipeline.RollBackExact`, `Pipeline.RollBackLost`).
- The bound on tracked rate-limit keys can be exceeded by as many keys as there were repeated uses
  (`RateLimit.SizeExact`, `RateLimit.SizeBound`, `RateLimit.SizeExceeded`).
- With a clock that goes back more requests than the limit can be admitted within a window
  (`RateLimit.WindowLimit`, `RateLimit.ClockBack`).
- Two requests at one clock reading count once in the sorted set and twice in the list
  (`RateLimit.ScriptCounts`, `RateLimit.SameReading`).

## What is taken as given

Unicode tables, case mapping, white space, UTF-8 validity and encoding, address and prefix parsing, the JSON
parser, the configured registries and the clocks are parameters; a predicate `Lawful` or `Sane` states what
is used of them (for instance that trimming does nothing to text with graphic ASCII at both ends, or that
the texts inside a parsed document rank below it). Go strings are sequences of characters that stand for
bytes, integers are unbounded, and times are real numbers.

## Model

| member | source | states |
|---|---|---|
| Intervals.SortIntervals | guardcore/redos_intervals.go:45-51 | The in-place insertion sort orders the array by lower bound and keeps exactly its elements. |
| Intervals.NormalizeIntervals | guardcore/redos_intervals.go:23-43 | The merging loop computes the canonical form of any list of valid intervals. |
| Intervals.NormalizeSpec | guardcore/redos_intervals.go:23-43 | The normal form is sorted, its intervals do not touch, and it has the same members as the input. |
| Intervals.CanonicalUnique | guardcore/redos_intervals.go:23-43 | Two canonical lists with the same members are the same list. |
| Intervals.NormalizeIsCanonicalForm | guardcore/redos_intervals.go:23-43 | Two lists normalise alike exactly when they have the same members; normalising twice is normalising once. |
| Intervals.Contains | guardcore/redos_intervals.go:86-101 | Binary search finds a code point exactly when it is a member. |
| Intervals.IntersectionLoop | guardcore/redos_intervals.go:125-143 | The two-cursor loop computes the canonical intersection. |
| Intervals.IntersectionSpec | guardcore/redos_intervals.go:125-143 | A code point is in the intersection exactly when it is in both sets; the result is canonical. |
| Intervals.ComplementLoop | guardcore/redos_intervals.go:145-158 | The cursor loop computes the complement. |
| Intervals.ComplementSpec | guardcore/redos_intervals.go:145-158 | The complement holds exactly the code points up to 0x10FFFF that are not members, in canonical form. |
| Intervals.UnionSpec | guardcore/redos_intervals.go:118-123 | Membership in the union is membership in either set; the result is canonical. |
| Intervals.DifferenceSpec | guardcore/redos_intervals.go:160-162 | Membership in the difference is membership in the first set and not in the second; the result is canonical. |
| Intervals.DoubleComplement | guardcore/redos_intervals.go:145-158 | Complementing twice gives back the very list. |
| Intervals.DeMorgan | guardcore/redos_intervals.go:118-158 | De Morgan's laws hold as equality of interval lists. |
| RegexCharSets.ComputeCategoryIntervals | guardcore/redos_escape.go:105-125 | Scanning all code points yields the canonical list of exactly those that satisfy a category's predicate. |
| RegexCharSets.CloseCase | guardcore/redos_escape.go:138-163 | The ignore-case loop yields the canonical closure of a set under the case variants of its members. |
| RegexCharSets.CategoryIntervalsFor | guardcore/redos_escape.go:251-258 | The intervals of a category escape are those of the category under the given flags. |
| RegexSyntax.CodePointsUnique | guardcore/redos_escape.go:105-125 | There is only one canonical list of the code points that satisfy a predicate. |
| RegexGrammar.QuantifierBounds | guardcore/redos_parser.go:255-337 | A quantifier that is read has 0 <= min <= max <= 2^32. |
| RegexParser.ParseRedosPattern | guardcore/redos_parser.go:132-156 | The parser object returns the tree, flags and group count that the grammar gives the pattern, or the grammar's error at the grammar's position. |
| RegexParser.ReParser.ParseAlternations | guardcore/redos_parser.go:158-175 | Branches separated by bars, collapsed when there is one; state and result agree with the grammar. |
| RegexParser.ReParser.ParseSequence | guardcore/redos_parser.go:177-193 | Items up to a bar, a closing parenthesis or the end, as the grammar lists them. |
| RegexParser.ReParser.ParseItem | guardcore/redos_parser.go:195-251 | One atom and at most one quantifier, with blanks skipped in verbose mode, as in the grammar. |
| RegexParser.ReParser.ParseQuantifier | guardcore/redos_parser.go:255-309 | The bounds and the length of the quantifier at the position, or none. |
| RegexParser.ReParser.ParseAtom | guardcore/redos_parser.go:341-381 | The atom at the position, or the error the grammar gives it. |
| RegexParser.ReParser.ParseGroup | guardcore/redos_parser.go:398-495 | Every kind of group head leads to the construct, the flags, the group number and the error of the grammar. |
| RegexParser.ReParser.ParseNamedGroup | guardcore/redos_parser.go:497-524 | A named group gets its number when it opens; a repeated name is an error. |
| RegexParser.ReParser.ParseGroupBody | guardcore/redos_parser.go:538-553 | A body closes with a parenthesis within the nesting limit, or fails as in the grammar. |
| RegexParser.ReParser.ParseInlineFlags | guardcore/redos_parser.go:556-630 | Inline flags change the flags in place, or fail, exactly as in the grammar. |
| RegexParser.ReParser.SkipVerbose | guardcore/redos_parser.go:640-662 | Blanks and comments are passed over in verbose mode only. |
| RegexParser.ReParser.ParseEscapeAtom | guardcore/redos_escape.go:166-231 | The node or error of an escape outside a class. |
| RegexParser.ReParser.ParseDecimalEscape | guardcore/redos_escape.go:282-314 | A decimal escape is an octal character or a group reference, decided as in the grammar. |
| RegexParser.ReParser.ParseGroupReference | guardcore/redos_escape.go:332-341 | A numeric reference to a group that is open or does not exist is an error. |
| RegexParser.ReParser.ParseHexEscape | guardcore/redos_escape.go:343-357 | Exactly the required number of hexadecimal digits, no more than a code point. |
| RegexParser.ReParser.ParseCharClass | guardcore/redos_escape.go:372-428 | The canonical member set of a bracketed class, or its error. |
| RegexParser.ReParser.ParseClassAtom | guardcore/redos_escape.go:440-509 | One class member: a character, a category, or an error. |
| RegexWellFormed.ParseWellFormed | guardcore/redos_parser.go:132-553 | Whenever parsing succeeds the tree is well formed, in the context that the parser's final state describes. |
| RegexWellFormed.CapturesNumberedInOrder | guardcore/redos_parser.go:398-524 | A preorder walk of a parsed tree meets the capturing indices 1, 2, ... up to the group count, each exactly once. |
| RegexWellFormed.RepeatsAndReferences | guardcore/redos_parser.go:195-337 | Every repeat has ordered bounds and one body node that is neither anchor nor repeat; every numeric back-reference names a group that opened and closed before it. |
| RegexWellFormed.NestingBounded | guardcore/redos_parser.go:538-553 | No parsed tree nests parentheses deeper than 20. |
| RegexRoundTrip.RoundTrip | guardcore/redos_parser.go:132-553 | Under any flags, parsing the canonical text of any well-formed tree returns that tree, groups numbered in opening order, with the character sets of those flags; the very tree exactly when its characters, dots and categories have those sets and, under ignore-case, its classes are closed under the case variants that the parser looks up. |
| RegexRender.SpeltExactly | guardcore/redos_escape.go:138-163 | A class spelt by its intervals is read as it is exactly when it is closed in that sense. |
| RegexRoundTrip.ClassGainsCase | guardcore/redos_escape.go:138-163 | Under ignore-case a class of one letter comes back with both cases. |
| RegexReparse.Reparse | guardcore/redos_parser.go:132-553 | Whatever flags a pattern is parsed with or sets itself, its rendering parses under any flags to the same tree with the character sets of those flags, and to the very tree exactly when it has those sets already. |
| RegexReparse.LeadingFaithful | guardcore/redos_parser.go:341-630 | The characters, dots and categories of a pattern that sets flags at its start only have the sets of its final flags. |
| RegexReparse.ReparseSame | guardcore/redos_parser.go:132-553 | Such a pattern comes back from rendering and parsing under its final flags as the same tree, under ignore-case exactly when its classes are closed under case variants. |
| RegexVerbose.BranchEndsExactly | guardcore/redos_parser.go:177-251 | Wherever a branch starts, the parser ends it exactly where a separately written scan of the text does, through groups, classes, escapes, comments and flag groups. |
| RegexVerbose.BarSeparatesExactly | guardcore/redos_parser.go:177-208 | A bar with blanks before it ends the branch exactly when the blanks stand behind an atom, and not behind a quantifier, a comment group, a flag group or the start of the branch. |
| RegexVerbose.StarredBar | guardcore/redos_parser.go:195-208 | In verbose mode a starred letter, a blank, a bar and a letter are one branch with a literal bar. |
| RegexVerbose.UnstarredBar | guardcore/redos_parser.go:195-208 | Without the star they are two branches. |
| RegexVerbose.BarAfterBlanks | guardcore/redos_parser.go:195-208 | An item that begins with blanks before a bar is that bar as a character, possibly with a quantifier. |
| AlphabetRegions.SplitAlphabet | guardcore/redos_slots.go:273-287 | One pass of the loop cuts every region in two by a constraint and drops the empty parts. |
| AlphabetRegions.SplitAllSpec | guardcore/redos_slots.go:240-287 | After any list of splits each character lies in as many regions as before, and two characters share a region exactly when they did and no constraint tells them apart. |
| AlphabetRegions.RegionsPartition | guardcore/redos_slots.go:240-287 | The regions are non-empty, pairwise disjoint, cover exactly the repeated alphabet, and separate two characters exactly when some atom does. |
| AlphabetRegions.AlreadySplit | guardcore/redos_slots.go:256-263 | Splitting again by a set already used changes nothing, so skipping an atom seen before is harmless. |
| Alphabet.CollectAlphabetAtoms | guardcore/redos_slots.go:190-215 | The recursive loop lists the atoms of the slots with their repetition marks. |
| Alphabet.PatternAtoms | guardcore/redos_slots.go:34-133 | The slots of a parsed pattern list exactly its single-character nodes in preorder, with the sets that characters and dots have under the pattern's final flags, marked when some enclosing repetition, other than one of a lookaround alone, can match more than once. |
| Alphabet.RepeatAlphabetFills | guardcore/redos_slots.go:240-271 | The loop returns the first members of the regions, whatever the identities of the interval sets. |
| Alphabet.FillsRepresent | guardcore/redos_slots.go:240-271 | The fills are a system of representatives of the repeated alphabet: one for each set of atoms that match a repeated character together. |
| PatternAlphabet.SlotsOwnExactly | guardcore/redos_atoms.go:19-29 | The slots hold the sets that the nodes were parsed with exactly when every character and every dot has the set it would have under the final flags. |
| PatternAlphabet.PatternFills | guardcore/redos_slots.go:240-271 | Then each character that some repeated node of the parsed tree matches has exactly one fill that the very same nodes match, and there are no other fills. |
| PatternAlphabet.UnscopedFills | guardcore/redos_slots.go:240-271 | That is so for every pattern that sets flags at its start only. |
| PatternAlphabet.ScopedDotUnfilled | guardcore/redos_slots.go:240-271 | A repeated dot with a scoped flag of its own, and a line break behind it: the line break is matched by a repeated node, and no fill is matched by the same nodes. |
| Alphabet.FinalFlagFills | guardcore/redos_slots.go:240-271 | For every pattern that parses, each character that some repeated node matches under the final flags has exactly one fill that the very same nodes match under them. |
| HeaderParams.SplitHeaderParams | guardcore/bodyscan.go:436-459 | The loop splits at the semicolons outside quoted strings. |
| HeaderParams.UnquoteHeaderParam | guardcore/bodyscan.go:416-432 | The loop strips matching quotes and undoes the two escapes. |
| HeaderParams.SplitParamPiece | guardcore/bodyscan.go:403-411 | A piece with an equals sign is a parameter with lowered, trimmed name and unquoted value; one without is none. |
| HeaderParams.ParseMediaTypeParams | guardcore/bodyscan.go:365-381 | The loop yields the main type and the parameters, later ones overriding earlier ones. |
| HeaderParams.UnquoteQuote | guardcore/bodyscan.go:416-432 | Quoting and unquoting any value gives it back. |
| HeaderParams.MediaTypeRoundTrip | guardcore/bodyscan.go:365-459 | A type written with any list of quoted parameter values is read back as that type and those values. |
| Multipart.NextLine | guardcore/multipartscan.go:169-176 | The line that starts at a position, its end and the next start. |
| Multipart.SlicePayload | guardcore/multipartscan.go:142-160 | The payload up to a boundary line, without the line break that belongs to the boundary. |
| Multipart.ReadOnePart | guardcore/multipartscan.go:89-137 | The loop over header and payload lines reads the part that the line grammar describes, or fails where the slice would start past the end. |
| Multipart.AppendLeafOrContainer | guardcore/multipartscan.go:181-187 | A part is appended as a leaf, or its nested level is expanded in place. |
| Multipart.ScanLevel | guardcore/multipartscan.go:50-83 | The scanner of one level, with its nested levels, computes the level's leaves; it terminates since a container's payload is shorter than its body. |
| Multipart.ParseMultipartParts | guardcore/multipartscan.go:43-48 | An empty boundary yields no parts. |
| MultipartRoundTrip.MessageTrip | guardcore/multipartscan.go:5-83 | Scanning the rendering of any tree of parts returns its leaves in document order with the same headers and payload bytes. |
| MultipartRoundTrip.EntityAt | guardcore/multipartscan.go:89-160 | A written part between two boundary lines is read back with its headers and payload. |
| MultipartRoundTrip.ContainerHeader | guardcore/multipartscan.go:181-199 | A first content-type header that names multipart and quotes any non-empty boundary makes the part a container with that boundary. |
| MultipartFaults.ScanFaults | guardcore/multipartscan.go:50-137 | The scan of a whole body fails at run time exactly when it meets, at its level or in a nested container, a part in whose header block the text ends at an unterminated blank line. |
| MultipartFaults.BodyFaults | guardcore/multipartscan.go:43-48 | The entry point fails on exactly those bodies when a boundary is given. |
| MultipartFaults.PartFaults | guardcore/multipartscan.go:89-137 | Reading one part fails exactly when the body ends inside its header block at an unterminated blank line. |
| MultipartFaults.OpenBoundaryFaults | guardcore/multipartscan.go:89-137 | An opening boundary line and nothing more is such a body. |
| MultipartFaults.PayloadsFit | guardcore/multipartscan.go:50-83 | All leaves together are no longer than the body. |
| Finders.GluedBacktickCandidates | guardcore/matchers.go:356-376 | For every text the scanner returns exactly the leftmost non-overlapping matches of its expression, for the word class it uses. |
| Finders.ScanBacktickCandidateBody | guardcore/matchers.go:378-410 | The body scan ends where the quoted body ends, or nowhere. |
| Finders.GluedDollarSubstitutionCandidates | guardcore/matchers.go:412-442 | The scanner returns exactly the leftmost non-overlapping matches of the documented expression. |
| Finders.ScanDollarSubstitutionBody | guardcore/matchers.go:444-464 | The body scan ends at the first closing character outside escapes, or nowhere. |
| Finders.LdapParenConjunctions | guardcore/matchers.go:466-492 | The scanner returns exactly the leftmost non-overlapping matches, greedy spaces included. |
| Finders.QuotedEnds | guardcore/matchers.go:378-464 | At each position backtracking over the starred body and the closing character allows exactly the one end that the scan finds. |
| Finders.AfterRun | guardcore/matchers.go:466-492 | Behind a starred space class followed by a non-space, backtracking keeps only the end of the longest run. |
| Finders.DocumentedBacktick | guardcore/matchers.go:356-410 | The documented ASCII expression and the scanner report the same matches exactly when, from left to right, no quoted body that closes opens with a letter or digit outside ASCII. |
| Finders.LetterOutsideAscii | guardcore/matchers.go:356-410 | A Greek letter between backticks is reported by the scanner and not by the documented expression. |
| PathMatch.DecodePercentRuns | guardcore/pathmatch.go:25-49 | The loops decode every run of escapes, and fail when a run is not valid UTF-8. |
| PathMatch.CollapseDotSegments | guardcore/pathmatch.go:59-76 | The segment stack computes the collapsed path. |
| PathMatch.NormalizeURLPath | guardcore/pathmatch.go:78-91 | Four rounds of decoding, refusal when an escape remains, then collapsing. |
| PathMatch.HasPercentRun | guardcore/pathmatch.go:93-100 | Finds an escape exactly when there is one. |
| PathMatch.DecodesToTheEnd | guardcore/pathmatch.go:78-91 | Normalisation succeeds exactly when one of the first four rounds leaves no escape, and then uses that round's text. |
| PathMatch.CollapseSurvivors | guardcore/pathmatch.go:59-76 | The left-to-right stack keeps exactly the segments that survive when each parent segment cancels the nearest uncancelled one before it. |
| PathMatch.NormalizedShape | guardcore/pathmatch.go:51-91 | Every result is a slash and non-empty segments without slash, backslash, dot segment or escape. |
| PathMatch.NormalizeIdempotent | guardcore/pathmatch.go:78-91 | Normalising a normalised path changes nothing. |
| PathMatch.SubtreeIsPrefix | guardcore/pathmatch.go:102-107 | A path lies under an exclusion exactly when it starts with the exclusion's segments. |
| PathMatch.NormalizedSubtree | guardcore/pathmatch.go:78-116 | For normalised requests and exclusions the text test is the prefix test on segment lists. |
| PathMatch.PathMatchesExclusions | guardcore/pathmatch.go:109-116 | A path matches when some exclusion covers it. |
| JsonWalk.AppendJsonWalkEntries | guardcore/jsonwalk.go:142-219 | The loop over the explicit frame stack appends exactly the values of the recursive preorder walk, and warns about the depth cap once if a container was cut. |
| JsonWalk.StepEntry | guardcore/jsonwalk.go:158-177 | An excluded key and an operator key cut off their subtree; any other key is emitted and its value pushed. |
| JsonWalk.StepNode | guardcore/jsonwalk.go:178-199 | Containers push their children in order or are cut at the cap. |
| JsonWalk.StepLeaf | guardcore/jsonwalk.go:199-217 | An embedded document is walked before the raw leaf, but never in the request-body context; an empty name gives an empty label. |
| JsonWalk.Budget.WarnJsonDepthOnce | guardcore/scanbudget.go:79-89 | Warns the first time only. |
| JsonExclusions.ExcludedFieldsUnseen | guardcore/jsonwalk.go:158-256 | Removing the excluded fields beforehand leaves the walk the same exactly when no container cut at the depth cap holds an excluded field. |
| JsonExclusions.CutShowsExcluded | guardcore/jsonwalk.go:178-256 | The compact text of a container is that of the container without its excluded fields only if it has none. |
| JsonExclusions.PasswordShown | guardcore/jsonwalk.go:178-199 | A walk that excludes passwords emits the text of a password in a container at the cap. |
| JsonExclusions.EmbeddedShown | guardcore/jsonwalk.go:199-217 | Outside a request body a text that is itself a document is emitted as it stands behind its walk, whatever fields are excluded. |
| JsonExclusions.EmbeddedPassword | guardcore/jsonwalk.go:199-217 | A form field with a document that embeds a login: the nested walk leaves the password out and the raw text shows it. |
| JsonText.WriteCompactJson | guardcore/jsonwalk.go:224-256 | The buffer receives the compact text of the subtree. |
| JsonText.WriteScalar | guardcore/jsonwalk.go:261-280 | Literals and texts that look like numbers are written bare, all others quoted. |
| JsonText.IsJsonNumberLiteral | guardcore/jsonwalk.go:282-305 | The loop accepts exactly the texts of number characters with a digit among them. |
| JsonText.WriteStringBody | guardcore/jsonwalk.go:309-337 | The loop escapes quotes, backslashes and control characters. |
| JsonReadBack.SerializeReadsBack | guardcore/jsonwalk.go:221-337 | The compact text of a tree reads back as that tree exactly when every scalar written bare is a JSON number or literal; otherwise it is not JSON. |
| JsonReadBack.StringBack | guardcore/jsonwalk.go:309-337 | Any string, escaped and quoted, reads back unchanged. |
| JsonReadBack.DateLosesQuotes | guardcore/jsonwalk.go:261-305 | A date passes the loose number test and loses its quotes. |
| Pipeline.NoRebuildLost | guardcore/pipeline.go:1190-1236 | In every run of mutations, rule applications and any number of concurrent rebuilds in which each roll-back is harmless: quiet and not stale means built from the current configuration. |
| Pipeline.OrderlyExact | guardcore/pipeline.go:1190-1236 | A run has only harmless roll-backs exactly when from none of its states, without a further roll-back, wrong checks can come to be taken for fresh ones. |
| Pipeline.InvKept | guardcore/pipeline.go:1190-1236 | Each step keeps that, while nothing is being changed, every build that would pass for fresh agrees with the configuration. |
| Pipeline.RollBackExact | guardcore/dynamicrules.go:491-509 | After a roll-back every continuation is safe exactly when no build of the current revision, published or in progress and with the signature of the snapshot, holds a value that differs from the snapshot, or a mutation is still open. |
| Pipeline.RollBackLost | guardcore/dynamicrules.go:491-509 | A run in which a rebuild reads during an application that is rolled back ends with unconfigured checks and a pipeline that is not stale. |
| Pipeline.SoloRebuild | guardcore/pipeline.go:1209-1236 | An undisturbed rebuild leaves the pipeline fresh and built from the configuration. |
| Pipeline.SecurityCheckPipeline.Stale | guardcore/pipeline.go:1190-1207 | Stale exactly when the revision or a container size has changed. |
| Pipeline.SecurityCheckPipeline.RebuildIfStale | guardcore/pipeline.go:1209-1236 | A call nobody disturbs rebuilds a stale pipeline from the configuration and leaves a fresh one alone. |
| DynamicRules.DynamicRuleManager.UpdateRules | guardcore/dynamicrules.go:339-398 | One delivery after the expiry check: the complete new state, whether rejected, ignored, applied or failed part of the way. |
| DynamicRules.DynamicRuleManager.ApplyRulesLocked | guardcore/dynamicrules.go:482-520 | Everything the rule changes is changed and the revision bumped, or nothing is. |
| DynamicRules.DynamicRuleManager.CheckRuleExpiry | guardcore/dynamicrules.go:317-332 | Past its expiry the rule is dropped, the base restored and the revision bumped. |
| DynamicRules.DynamicRuleManager.RejectIfAlreadyExpired | guardcore/dynamicrules.go:301-312 | An expired delivery is rejected, with one warning per rule and version. |
| DynamicRules.DynamicRuleManager.HydrateLastKnownRules | guardcore/dynamicrules.go:749-767 | The stored rule is applied at most once per manager. |
| DynamicRules.DynamicRuleManager.ApplyBlockingRules | guardcore/dynamicrules.go:558-617 | The four list fields a rule overrides, unless a panic comes first. |
| DynamicRules.DynamicRuleManager.ApplyRateLimitRules | guardcore/dynamicrules.go:626-642 | The rate fields a rule overrides, unless a panic comes first. |
| DynamicRules.DynamicRuleManager.ApplyFeatureToggles | guardcore/dynamicrules.go:653-678 | The switches a rule overrides, unless a panic comes first. |
| DynamicRules.DynamicRuleManager.ActivateEmergencyMode | guardcore/dynamicrules.go:684-700 | Emergency mode, its whitelist, and the halved threshold that stays at least one. |
| DynamicRules.SecurityConfig.RestoreSnapshot | guardcore/dynamicrules.go:456-473 | All fifteen fields return to the snapshot, the revision stays. |
| DynamicRules.NormalizeCountryList | guardcore/config.go:790-805 | The loop lists the upper-case codes once each, in the order first seen. |
| DynamicRules.CountriesDistinct | guardcore/config.go:790-805 | The listed codes are distinct and exactly those of the input. |
| DynamicRules.RunKeeps | guardcore/dynamicrules.go:288-398 | Over every run a base is kept exactly while a rule is active, it is the configuration before the first of the rules active since, and the threshold stays positive. |
| DynamicRules.ExpiryRestores | guardcore/dynamicrules.go:317-332 | After any run the expiry of the active rule returns every field to its value before the first rule since none was active. |
| DynamicRules.NoTrace | guardcore/dynamicrules.go:317-520 | Unless somebody else changes the configuration, it is the initial one whenever no rule is active. |
| DynamicRules.FailuresChangeNothing | guardcore/dynamicrules.go:482-520 | However many applications fail, no field, no revision, no active rule and no base changes. |
| DynamicRules.ReplaysNeverHalve | guardcore/dynamicrules.go:291-297 | Any number of replays of the active rule at its version or an older one leaves every field alone. |
| DynamicRules.AppliedThreshold | guardcore/dynamicrules.go:653-700 | The threshold after an application: the override or the live value, halved but at least one in emergency mode. |
| DynamicRules.RevisionTells | guardcore/dynamicrules.go:317-520 | A run at whose end the revision is that of its start has the fields of its start between all of its events. |
| Terminator.SkipCharClass | guardcore/redos_structure.go:15-28 | The cursor loop stops just past the class. |
| Terminator.SkipQuantifierAt | guardcore/redos_terminator.go:61-72 | The length of the quantifier at a position, zero if there is none. |
| Terminator.SkipBraceQuantifierAt | guardcore/redos_terminator.go:31-58 | The length of a braced quantifier whose parts are digits and not all empty. |
| Terminator.UnreachableTerminatorWalk | guardcore/redos_terminator.go:337-353 | The step-by-step walk returns the first finding. |
| Terminator.UnreachableTerminatorExcludedScan | guardcore/redos_terminator.go:262-353 | The second, separately written walk answers true exactly when the first reports a finding whose exclusion set is non-empty and contains every terminator character. |
| Terminator.FindingsGenuine | guardcore/redos_terminator.go:137-238 | A finding is a dot or negated class repeated without bound, behind literals that it can absorb and that cannot end it. |
| Terminator.FindingPrefix | guardcore/redos_terminator.go:191-238 | Every character of a reported prefix stands in the pattern before the reported scan. |
| ReachProbe.ClampedCost | guardcore/redos_reach_probe.go:27-49 | A clamped repetition lies between its bounds, costs at most 24000 bytes, and more than the required ones only if the budget holds them. |
| ReachProbe.FindGroupEnd | guardcore/redos_structure.go:76-96 | The depth-counting loop computes the scan for the end of a group. |
| PatternStructure.GroupEndExact | guardcore/redos_structure.go:76-96 | That scan finds the first place where the parentheses outside escapes and classes balance, and nothing when there is none. |
| ReachProbe.SplitTopLevelAlternations | guardcore/redos_structure.go:179-203 | The loop computes the split at top-level bars. |
| PatternStructure.SplitExact | guardcore/redos_structure.go:179-203 | Joined by bars the branches give the text back, and the bars between them are exactly those outside escapes, classes and groups. |
| ReachProbe.ProbeSynthState.ReachStressFill | guardcore/redos_reach_probe.go:201-212 | A unit repeated within the budget, its first byte noted. |
| ReachProbe.ProbeSynthState.SynthEscapeAtom | guardcore/redos_reach_probe.go:251-287 | Anchors contribute nothing, back-references their group's text, other escapes a representative. |
| ReachProbe.ProbeSynthState.SynthGroupAtom | guardcore/redos_reach_probe.go:290-331 | The first branch of a group, its text stored under the group's number, repeated as often as required, else at most three times and within the budget. |
| ReachProbe.ProbeSynthState.SynthNextAtom | guardcore/redos_reach_probe.go:228-246 | The piece for the atom at a position. |
| ReachProbe.ProbeSynthState.SynthesizeSegment | guardcore/redos_reach_probe.go:334-358 | The pieces of a segment joined, or failure beyond the nesting or length limit. |
| ReachProbe.SynthesizeReachingProbe | guardcore/redos_reach_probe.go:361-377 | The body and the first break character not seen while it was made. |
| ReachProbe.SegmentKept | guardcore/redos_reach_probe.go:201-358 | Through groups and back-references every ASCII byte is noted, no piece exceeds 24000 bytes, and the budget pays for all that is emitted. |
| ReachProbe.ProbeShape | guardcore/redos_reach_probe.go:201-377 | Every probe is at most 24001 bytes long and ends with a break character that stands nowhere else in it; a pattern that synthesises lacks one exactly when its body uses up all break characters. |
| RateLimit.LruStore.GetOrCreate | guardcore/ratelimit.go:181-199 | A hit appends the key to the order once more; a miss drops the oldest entry of a full store. |
| RateLimit.LruStore.Set | guardcore/ratelimit.go:201-213 | Stores a value, making room for a new key. |
| RateLimit.TouchOrdered | guardcore/ratelimit.go:181-199 | Every tracked key occurs in the order. |
| RateLimit.SizeExact | guardcore/ratelimit.go:181-199 | A full store stays within its bound exactly when the oldest entry of the order is still tracked. |
| RateLimit.SizeBound | guardcore/ratelimit.go:181-199 | The number of tracked keys never exceeds the bound by more than the number of hits. |
| RateLimit.SizeExceeded | guardcore/ratelimit.go:181-199 | For every bound and number of hits there is a run that tracks that many keys more than the bound. |
| RateLimit.InMemoryRequestCount | guardcore/ratelimit.go:228-239 | Prunes the key's list, counts what is left and appends the current time. |
| RateLimit.StoredIsRecent | guardcore/ratelimit.go:228-239 | With a nondecreasing clock the pruned list is the list of all past attempts newer than the window's start. |
| RateLimit.CountIsRecent | guardcore/ratelimit.go:228-239 | With a nondecreasing clock the count met in the kept list is the number of past attempts in the window. |
| RateLimit.WindowLimit | guardcore/ratelimit.go:448-472 | With a nondecreasing clock, no stretch of the window's length, wherever it is laid, admits more than the limit by the kept list. |
| RateLimit.StoreLimit | guardcore/ratelimit.go:181-239 | The same of the store with any number of other keys, for a key that is not thrown out. |
| RateLimit.ClockBack | guardcore/ratelimit.go:228-239 | Attempts at 0, 1, 100 and 2 with a window of ten and a limit of two: three are admitted within one window. |
| RateLimit.OwnHistory | guardcore/ratelimit.go:181-239 | A key that is not thrown out keeps exactly its own history, whatever other keys do. |
| RateLimit.FewKeysStay | guardcore/ratelimit.go:181-199 | No key is thrown out while no more distinct keys turn up than the bound. |
| RateLimit.VerdictIsSlidingWindow | guardcore/ratelimit.go:228-239 | The count met by a key's next attempt is the number of its past attempts in the window. |
| RateLimit.ScriptHolds | guardcore/ratelimit.go:68-84 | The sorted set holds the distinct times in the window, key expiry notwithstanding. |
| RateLimit.ScriptCounts | guardcore/ratelimit.go:68-146 | The script counts one more than the list exactly when no two clock readings in the window coincide. |
| RateLimit.SameVerdict | guardcore/ratelimit.go:448-472 | With a strictly increasing clock the sorted set and the list give the same verdict at every step. |
| RateLimit.SameReading | guardcore/ratelimit.go:68-146 | At one clock reading the list refuses the second attempt and the sorted set does not. |
| IPBan.IPBanManager.LocalSet | guardcore/ipban.go:129-145 | Stores the entry, evicting the oldest address when the cache is full. |
| IPBan.IPBanManager.LocalPurge | guardcore/ipban.go:147-159 | Removes an address from cache and order. |
| IPBan.IPBanManager.LocalGet | guardcore/ipban.go:161-179 | Answers for a live entry and drops a dead one. |
| IPBan.IPBanManager.BanIP | guardcore/ipban.go:181-269 | The outcome and the whole new cache of banning an address or a network. |
| IPBan.IPBanManager.CheckNetworkCache | guardcore/ipban.go:290-306 | Drops the dead networks in place and says whether a live one contains the address. |
| IPBan.IPBanManager.IsIPBanned | guardcore/ipban.go:271-288 | Banned exactly when a live exact or network entry covers the address. |
| IPBan.IPBanManager.UnbanIP | guardcore/ipban.go:325-343 | Removes the exact entry. |
| IPBan.SetOrdered | guardcore/ipban.go:129-145 | The order lists each cached address exactly once and the cache stays within 10000. |
| IPBan.NeverSelfDoS | guardcore/ipban.go:97-179 | After any run the order is exact, the cache bounded, and nothing reported banned is a loopback or trusted-proxy address. |
| IPBan.BannedByHistory | guardcore/ipban.go:129-306 | An address is reported banned exactly when its last ban since it was last unbanned or thrown out of the full cache is live, or some network ever banned is live and contains it. |
| IPBan.FewStay | guardcore/ipban.go:129-145 | No address is thrown out while no more addresses are banned than the cache holds. |
| KeyOrder.RemoveKey | guardcore/ipban.go:147-159 | The loop closes up the place of a key in the order. |
| KeyOrder.WithoutSpec | guardcore/ipban.go:147-159 | Removing a key from a list without repetitions leaves exactly the other keys, each once. |
| ForwardedChain.ForwardedHeaderIPs | guardcore/ipextraction.go:99-106 | Every comma-separated entry, trimmed and without port. |
| ForwardedChain.RightSideUnlistedCount | guardcore/ipextraction.go:111-123 | How many entries right of the selected one are no configured proxies. |
| ForwardedChain.ResolveRightToLeft | guardcore/ipextraction.go:129-142 | The walk from the right. |
| ForwardedChain.ResolveClientIP | guardcore/ipextraction.go:284-318 | The depth-selected entry, the walk, or the peer. |
| ForwardedChain.PrefixIgnored | guardcore/ipextraction.go:68-142 | Text prepended to a chain that already has the configured number of entries never changes the resolved client. |
| ForwardedChain.RightToLeftSpec | guardcore/ipextraction.go:129-142 | The walk yields the rightmost entry that is no configured proxy, and none if there is no such entry. |
| ForwardedChain.ShortChain | guardcore/ipextraction.go:284-318 | A chain shorter than the depth resolves to the peer; behind a long enough prefix it resolves to its own rightmost entry that is no configured proxy, and only if there is none the prefix is resolved, with the depth that is left. |
| ForwardedChain.PrefixCounts | guardcore/ipextraction.go:284-318 | One entry in front of a chain of configured proxies that is one entry short is the client. |
| ForwardedChain.RequestState.ExtractClientIP | guardcore/ipextraction.go:326-369 | With proxies configured and a host known the resolved client is stored, and a stored client answers every later call; otherwise nothing is stored. |
| PerformanceMonitor.NamesMeet | guardcore/performance_monitor.go:241-249 | Two patterns are tracked under one name exactly when they are equal or both are too long with the same first hundred characters. |
| PerformanceMonitor.PerformanceMonitor.RecordMetric | guardcore/performance_monitor.go:266-324 | The whole new table after one observation, with eviction of the oldest pattern, and the recent history with the new entry. |
| PerformanceMonitor.PerformanceMonitor.RemovePatternStats | guardcore/performance_monitor.go:808-819 | Drops one pattern and its place in the order. |
| PerformanceMonitor.PerformanceMonitor.ClearStats | guardcore/performance_monitor.go:798-804 | Drops every pattern and the recent history. |
| PerformanceMonitor.PerformanceMonitor.ReserveAnomalyEmission | guardcore/performance_monitor.go:558-572 | Emission is refused exactly within the cooldown of a tracked pattern's last one. |
| PerformanceMonitor.MeanOf | guardcore/performance_monitor.go:347-356 | The arithmetic mean, zero for no samples. |
| PerformanceMonitor.ObserveReflects | guardcore/performance_monitor.go:299-321 | Statistics that say what a history says still do after one more observation. |
| PerformanceMonitor.RunKeeps | guardcore/performance_monitor.go:266-324 | Over every run the order lists the tracked patterns once, in first-seen order and within the cap; recent times are the last samples that did not time out, the average is their mean, and timeouts and samples add up to the executions. |
| PerformanceMonitor.SortSlowestFirst | guardcore/performance_monitor.go:654-664 | The in-place exchange sort orders by average and name, slowest first, and keeps exactly the entries. |

## Left out

- RegexParser.ParseRedosPattern: error texts are modelled as kinds with a position, not as message strings.
- Pipeline.NoRebuildLost: routes are fixed, since the route revision is read after the build; and it asks that roll-backs are harmless, without which it is false as `Pipeline.RollBackExact` says.
- Pipeline.SecurityCheckPipeline.Stale: the route revision, which also makes the pipeline stale, is not modelled.
- Pipeline.SecurityCheckPipeline.RebuildIfStale: the route revision and the muted check logs are not modelled.
- DynamicRules.RevisionTells: speaks of the states between events; a failed application changes fields and restores them within one, and an outside change is assumed to come with a new revision.
- PatternAlphabet.PatternFills: one direction; the equivalence is proved for the sets in the slots (`PatternAlphabet.SlotsOwnExactly`), of which the fills are only the first members of regions, so that with other sets they may still represent the characters, as when nothing is repeated.
- JsonExclusions.ExcludedFieldsUnseen: removes the fields of the document itself, not those of texts in it that are documents.
- MultipartRoundTrip.MessageTrip: headers are unfolded and every level is closed; folded headers and missing closing boundaries are covered by the methods, not by the round trip.
- RateLimit.VerdictIsSlidingWindow: one window per key; the endpoint, route and geo tiers share a key in the source, so a request with several of them is counted once per tier.
- IPBan.IPBanManager.BanIP: the seam for injected faults and the Redis branch are not modelled.
- DynamicRules.DynamicRuleManager.UpdateRules: the bans and unbans a rule asks for, its events, its persistence, its suspicious patterns and the enabling switch are not modelled.
- DynamicRules.DynamicRuleManager.ApplyRulesLocked: the address bans and unbans applied first, which a failure does not undo, and the persistence step are not modelled.
- DynamicRules.DynamicRuleManager.ApplyBlockingRules: the list of suspicious patterns is not modelled.
- Finders.GluedBacktickCandidates: positions are rune positions; the byte positions of a match are not part of this model.
- JsonWalk.AppendJsonWalkEntries: the text of a cut container is a parameter there; `JsonExclusions` ties it to the compact writer.
- PerformanceMonitor.PerformanceMonitor.RecordMetric: statistics are values in the table, so a report built while its pattern changes is not captured; anomaly detection and callbacks are left out, and a character of a name stands for a rune.
- Flags stored on single tree nodes, and the cache of category intervals.
- Finding texts of the terminator walk, the sorting of their characters, and the other structural rules of the ReDoS checks.
- Timing arbitration of probes and everything that rests on a foreign regex engine.
- The other hand-written finders, the pattern table, prefilters, decoding of bodies and form fields.
- Redis, HTTP, file and geolocation access; of the rate-limit script only its effect on the sorted set.
- The checks themselves, their order of execution, events, logging and enrichment.
- IPv6 zones, floating-point rounding and machine-integer overflow.
