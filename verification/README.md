# Verification of the Neo4j Kubernetes operator's self-contained logic

A Dafny model of the parts of the operator and of the `kubectl neo4j` plugin
that decide something on their own, with proofs of what they promise:

- **Dynamic namespace discovery** (`NamespaceDiscovery`, `NamespaceResolver`,
  `WatchConfig`, `WatchValues`, `NamespaceEntries`, `CacheOptions`): the protocol
  between the watcher goroutine and the main loop as a state machine over all its
  steps, and the splitter, parser and resolver around it.
- **CRD structural defaulting** (`SchemaDefaults`, `SchemaDefaulting`) and **support
  bundle redaction** (`EnvRedaction`, `EnvRedacting`): recursive walks that write
  into a heap of Go maps and slices (`JsonHeap`), each proved against a function
  on JSON values (`JsonTree`), whose meaning is then stated by paths.
- **Argument permutation** (`FlagPermutation`): the reordering in front of
  `flag.Parse`, against a parser that accepts flags anywhere.
- **Diagnosis** (`WordWrap`, `BackupVerdict`), **shell quoting** (`ShellQuoting`),
  the **AuraInstance admission rules** over whole update histories
  (`AuraAdmission`), and **cluster topology** (`ClusterTopology`).

`dafny verify dfyconfig.toml` checks everything.

## How to read it

Where Go ranges over a map, the methods pick the next key with `:|`, so what they
ensure holds for every iteration order. In the heap walks a ghost `Shape` records
the maps and slices a document is made of; `Tree` says that no two places share
one, `Holds` that the heap holds that document. The methods write only inside the
shape they are given, so in particular they never write to the schema.

Library behaviour the code relies on is a parameter wherever nothing depends on
it: `path.Match`, `regexp` and `labels` (the `Library` of `WatchConfig`), whether a
flag accepts a text (`accepts`), and what `diagnosePod` finds (`Findings`). The
protocol is proved for every resolver. Opening a watch without a resource version
first delivers an Added event per existing object, as the Kubernetes API concepts
describe under "Get State and Start at Most Recent".

## Where code and intent part

- A namespace watch that the server ends is never opened again: the `break` at
  `cmd/main.go:1808` leaves the `select` only (`LostWhenWatchEnds`, `NeverReopened`).
  From then on the watcher reads the closed channel without pause (`Spins`), so
  the operator's own steps are bounded exactly while the watch lives
  (`BoundedIffWatchLives`). An operator at rest follows every change exactly when
  its watch has not ended or nothing could change its selection
  (`FollowsEveryChangeIff`).
- A failed list spends the token, and the change goes unnoticed until the next event
  (`LostWhenListFails`). `NoChangeIsLost` has one more exception, a watch that opens
  on a cluster without namespaces (`LostWhenOpenedEmpty`); it is hypothetical, since
  every cluster has some (`NeverBlind`).
- A bare `*` behind a pattern in WATCH_NAMESPACE drops the explicit names and leaves
  the patterns in force (`StarDropsNames`, `StarBehindPattern`).
- A flag that wants a value and stands last takes the terminator appended by
  permutation as its value (`DanglingParsesOtherwise`, `DanglingAlone`).
- The rule that fixes graphAnalytics at creation can be passed in two updates
  through the deprecated graphAnalyticsPlugin (`AnalyticsReachableIff`).
- "At least one server must be able to host primaries" is enforced for hints only:
  serverModeConstraint SECONDARY without hints is accepted with a warning and
  leaves no such server (`NoPrimariesAccepted`, `PrimariesIff`).
- The user guide and the field's own comment let a hint override serverModeConstraint
  for its own server; in the code one hint turns the constraint off for all servers
  (`HintTurnsConstraintOff`, `DocumentedIff`). The tests side with the code
  (`internal/resources/cluster_test.go:1112-1127`).

## Model

| member | source | states |
|---|---|---|
| `NamespaceDiscovery.AtMostOneManager` | cmd/main.go:1102-1152 | in every reachable state at most one manager goroutine is alive; it is the one whose errCh the loop holds and it runs the loop's current selection; none is alive between two managers or on any return path |
| `NamespaceDiscovery.ReturnsManagersError` | cmd/main.go:1111-1124 | once the loop has returned, no manager is alive; it returns an error other than cancellation exactly when its manager failed, nil only when its manager ended without an error, and with a live context exactly what the manager returned |
| `NamespaceDiscovery.ReturnsRightlyAlongRun` | cmd/main.go:1109-1152 | along every run: a returned error is the manager's own, or cancellation when the context is canceled and the manager did not fail |
| `NamespaceDiscovery.NoRestartWithoutChange` | cmd/main.go:1131-1133 | while the resolution stays the same, no run of cluster changes, repeated events, lists and failed lists replaces the running manager |
| `NamespaceDiscovery.OnlyChangesAreHeard` | cmd/main.go:1811-1814 | bookmark and error events and the end of the watch never make a waiting loop list the namespaces |
| `NamespaceDiscovery.ShutsDown` | cmd/main.go:1109-1115 | once the context is canceled, every schedule has at most Remaining(s) steps left besides reads from an ended watch, and when none is possible the loop has returned, the watcher has stopped and no manager is alive |
| `NamespaceDiscovery.NoChangeIsLost` | cmd/main.go:1116-1144 | in every reachable state, a selection that differs from a fresh resolution of the live namespaces has a change on its way (watch still opening, event queued, token, list called but not yet answered), or the last list failed, the watch is over, it began on an empty cluster, or the loop returned; a list answered before the change does not count as on its way |
| `NamespaceDiscovery.CatchesUp` | cmd/main.go:1084-1153 | from every reachable state s with a live context, under every schedule: at most Work(s) of the operator's own steps are anything but a read from an ended watch; when none of those is left, it has returned or its only live manager watches the fresh resolution, exactly when at s a change event, token or unanswered list was on its way (or the watch about to open on a cluster with namespaces), or the loop was bound to return, or its chosen selection was already the fresh one; otherwise it is deaf for one of the named reasons |
| `NamespaceDiscovery.ComesToRest` | cmd/main.go:1101-1153 | from every such state some schedule comes to rest, within Work(s) steps |
| `NamespaceDiscovery.FollowsEveryChangeIff` | cmd/main.go:1101-1153 | an operator at rest ends up watching the fresh resolution after every change of the cluster and under every schedule, exactly when the server has not ended its watch or no cluster resolves to anything else; an earlier failed list makes no difference |
| `NamespaceDiscovery.CatchingUpKept` | cmd/main.go:1116-1144 | no own step changes whether the operator will catch up |
| `NamespaceDiscovery.BoundedIffWatchLives` | cmd/main.go:1800-1816 | from a reachable state with a live context, the runs of own steps are bounded exactly when the server has not ended the watch, and Work(s) is then a bound |
| `NamespaceDiscovery.Spins` | cmd/main.go:1805-1809 | on an ended and drained watch the watcher spins: for every n, n reads of the closed channel lead back to the same state |
| `NamespaceDiscovery.SpinReachable` | cmd/main.go:1805-1809 | every initial state has a run into such a spin |
| `NamespaceDiscovery.WatchesMatchingNamespaces` | cmd/main.go:1711-1741 | with the operator's resolver: from a state that will catch up, the loop at rest has returned or the running manager watches exactly the explicit and the matching namespaces of the cluster |
| `NamespaceDiscovery.KeptAlongRun` | cmd/main.go:1101-1152 | both invariants hold along every run, whatever the cluster, the API server, the managers and the scheduler do |
| `NamespaceDiscovery.OneManagerKept` | cmd/main.go:1102-1146 | every step keeps the one-manager invariant, including cancellation exactly while the loop waits for a manager to stop |
| `NamespaceDiscovery.NoLostChangeKept` | cmd/main.go:1780-1824 | every step keeps the no-lost-change invariant, across the coalescing of events into one token and changes between the answer to a list and its comparison |
| `NamespaceDiscovery.OwnStepWorks` | cmd/main.go:1116-1144 | every own step strictly decreases the work left, except a read from an ended watch, which changes nothing; none revives or ends the watch or touches the cluster |
| `NamespaceDiscovery.SettledIsUpToDate` | cmd/main.go:1116-1144 | a state in which no own step but reading an ended watch is possible is up to date, deaf or returned |
| `NamespaceDiscovery.LostWhenWatchEnds` | cmd/main.go:1806-1809 | for every initial cluster that holds a namespace and every change of what is resolved, a run after which that change is lost because the server ended the watch: `break` leaves the select only |
| `NamespaceDiscovery.NeverReopened` | cmd/main.go:1800-1816 | once the watch is over and drained, with no token and no list or restart under way, no run of any kind changes the selection again |
| `NamespaceDiscovery.LostWhenListFails` | cmd/main.go:1126-1130 | for every change to a cluster that holds a namespace and resolves differently, a run in which its events become one token, the list call fails and the token is spent: the change goes unnoticed until the next event, after which every change is followed again |
| `NamespaceDiscovery.LostWhenOpenedEmpty` | cmd/main.go:1787-1799 | hypothetical: a run after which a change goes unnoticed until the next event because the watch opened on a cluster without any namespace and so began without events |
| `NamespaceDiscovery.NeverBlind` | cmd/main.go:1787-1799 | along a run over clusters that always hold a namespace, as real ones do, no watch opens on an empty cluster, so that exception never applies |
| `CacheOptions.ApplyWatchNamespaces` | cmd/main.go:1766-1778 | a nil map is replaced by a fresh one holding exactly the selection's names; a map already there is shared and grows |
| `CacheOptions.StartManagers` | cmd/main.go:1155-1168 | what each of any number of successive starts is given, as a function of the base options and the selections |
| `CacheOptions.NothingLeftOverIffNil` | cmd/main.go:1276-1360 | every start gets exactly its own selection's names, for all histories, exactly when the base options leave DefaultNamespaces nil (as the configure functions do) |
| `NamespaceResolver.MatchNamespace` | cmd/main.go:1743-1764 | true exactly when some glob, regular expression or label selector matches |
| `NamespaceResolver.ResolveWatchNamespaces` | cmd/main.go:1711-1741 | fails exactly when patterns need a list and the list failed; otherwise the strictly sorted list of exactly the explicit and matching names |
| `NamespaceResolver.ResolutionOrderFree` | cmd/main.go:1722-1740 | the answer is the same for every order in which the API lists the namespaces |
| `NamespaceResolver.WatchNamespaceSelectionEqual` | cmd/main.go:1826-1839 | the element-by-element comparison decides equality of selections |
| `NamespaceResolver.ListEqualityIsSetEquality` | cmd/main.go:1131-1133 | two resolutions compare equal exactly when they denote the same set of namespaces (or both denote all) |
| `StringOrder.SortNames` | cmd/main.go:1734-1738 | ranging over the name set in any order and sorting gives the one strictly sorted list |
| `StringOrder.SortedUnique` | cmd/main.go:1826-1839 | a strictly sorted list is determined by its elements |
| `StringOrder.LessIff` | cmd/main.go:1738 | the order is the byte-wise one: a proper prefix comes first, else the first difference decides |
| `NamespaceEntries.SplitNamespaceEntries` | cmd/main.go:1659-1697 | the loop computes the entries of the scan over escapes, brace depth and separators |
| `NamespaceEntries.EscapedRoundTrip` | cmd/main.go:1659-1697 | for every list of trimmed non-empty entries, escaping backslash, comma and braces and joining with commas is undone by splitting |
| `NamespaceEntries.EscapedPieces` | cmd/main.go:1659-1697 | for every list of texts whatsoever, escaping, joining and splitting gives the texts trimmed, without the blank ones |
| `NamespaceEntries.PlainPieces` | cmd/main.go:1682-1694 | plain texts joined with commas are trimmed and the blank ones dropped |
| `NamespaceEntries.PaddedEntries` | cmd/main.go:1682-1694 | plain entries with any white space around each, joined with commas, split into exactly the entries |
| `NamespaceEntries.SplitIgnoresOuterSpace` | cmd/main.go:1575 | trimming the value before splitting makes no difference, for every value |
| `GoStrings.TrimSpaceIs` | cmd/main.go:1681-1694 | trimming cuts off white space at the two ends and nothing else |
| `NamespaceEntries.RoundTripIffPlain` | cmd/main.go:1659-1697 | unescaped entries joined with commas come back exactly when they have no backslash, commas only inside braces, and close their braces before the next entry |
| `NamespaceEntries.SplitTrims` | cmd/main.go:1682-1694 | every entry yielded is trimmed and non-empty |
| `NamespaceEntries.Canonical` | cmd/main.go:1659-1697 | every value can be rewritten in escaped form without changing its entries |
| `NamespaceEntries.NothingGained` | cmd/main.go:1665-1696 | the entries, each counted with one separator, are together no longer than the value with one |
| `WatchValues.WrittenMeans` | cmd/main.go:1583-1645 | every meaning has a written form (`glob:`, `regex:`, `label:{}` around the text, a plain name as itself, `*`) that the parser reads as exactly that meaning, the two kinds of error included |
| `WatchValues.MeaningIff` | cmd/main.go:1583-1645 | the meanings a trimmed entry can have are exactly: star, a name without prefix and glob character, a trimmed valid pattern, a trimmed invalid one, or an empty one |
| `WatchValues.PrefixedEntry` | cmd/main.go:1592-1634 | `glob:`, `regex:`, `re:` and `label:` in any letter case make the trimmed text behind them a pattern of that kind |
| `WatchValues.SelectorIs` | cmd/main.go:1619-1625 | a pair of braces is taken off a label selector and its inside trimmed; any other text is the selector itself |
| `WatchValues.BareEntry` | cmd/main.go:1635-1644 | an entry without such a prefix is the star, a glob exactly when it has one of the characters `*`, `?` and `[`, or else a name |
| `WatchConfig.ParseWatchNamespaceConfig` | cmd/main.go:1573-1657 | the patterns of every entry before the first bare star in order, the sorted explicit names when there is no star, or the error of the first bad entry |
| `WatchConfig.MeansUnique` | cmd/main.go:1573-1657 | that specification determines the outcome |
| `WatchConfig.AllIffStarFirst` | cmd/main.go:1587-1590 | isAll() holds exactly when there is no entry or a bare star comes before every pattern; a star always drops the explicit names; otherwise there are patterns or explicit names, the latter strictly sorted |
| `WatchConfig.AcceptedValue` | cmd/main.go:1699-1705 | the same for every value the parser accepts, the loss of explicit names behind a star included |
| `WatchValues.StarDropsNames` | cmd/main.go:1587-1590 | every value made of a plain name, a valid glob and a star is accepted, with the glob as its only pattern and no explicit name: the star neither watches all nor keeps the name |
| `WatchValues.StarBehindPattern` | cmd/main.go:1587-1590 | in particular the value `a,t*,*` is accepted and watches only `t*` |
| `WatchValues.ConfigRoundTrip` | cmd/main.go:1573-1697 | for every configuration that can arise, the value written for it (escaped entries joined with commas) splits and parses back to it |
| `WatchValues.DenotableIff` | cmd/main.go:1573-1697 | the configurations that values parse to are exactly those with valid trimmed patterns and strictly sorted plain names that watch all and name none, or do not watch all and have a pattern or a name |
| `SchemaDefaulting.ApplyDefaults` | cmd/kubectl-neo4j/validate_schema_defaults.go:170-212 | in place and for every iteration order of the maps: the document becomes Defaulted of what it was, every map and slice still occurs at one place only, only the document's own references are written, and new references are fresh |
| `SchemaDefaulting.DecodeDefault` | cmd/kubectl-neo4j/validate_schema_defaults.go:216-224 | a decodable default yields a copy made of fresh maps and slices only |
| `SchemaDefaulting.InsertDefaults` | cmd/kubectl-neo4j/validate_schema_defaults.go:176-185 | the first loop gives every defaulted property that is absent, or null where null is not allowed, its default, and touches nothing else |
| `SchemaDefaulting.WalkFields` | cmd/kubectl-neo4j/validate_schema_defaults.go:186-201 | the second loop walks every field, inserted ones included, against its property or the additional schema |
| `SchemaDefaulting.WalkItems` | cmd/kubectl-neo4j/validate_schema_defaults.go:202-210 | every item is filled and walked against the item schema; the length stays |
| `SchemaDefaults.DefaultedIsComplete` | cmd/kubectl-neo4j/validate_schema_defaults.go:170-212 | everywhere the schema reaches, inside inserted defaults too, every property with a decodable default is present, and a null is allowed or is the default |
| `SchemaDefaults.CompleteIffFixpoint` | cmd/kubectl-neo4j/validate_schema_defaults.go:170-212 | a document is complete exactly when defaulting leaves it as it is |
| `SchemaDefaults.Idempotent` | cmd/kubectl-neo4j/validate_schema_defaults.go:170-212 | a second pass changes nothing |
| `SchemaDefaults.InputSurvives` | cmd/kubectl-neo4j/validate_schema_defaults.go:170-212 | every place of the input is still there, with its scalar, its keys or its array length |
| `SchemaDefaults.OnlyDefaultsAreAdded` | cmd/kubectl-neo4j/validate_schema_defaults.go:180-184 | every value the input did not have lies inside a schema default, itself defaulted, inserted where the input had nothing |
| `EnvRedacting.RedactEnvIn` | cmd/kubectl-neo4j/bundle.go:446-465 | in place and for every iteration order: the document becomes Redacted of what it was, no reference is added or shared, and there is exactly one note for each blanked entry, naming its variable |
| `EnvRedacting.RedactEnvList` | cmd/kubectl-neo4j/bundle.go:467-485 | each entry with a literal under a sensitive name is blanked and noted, the others are left |
| `EnvRedacting.RedactEntry` | cmd/kubectl-neo4j/bundle.go:469-482 | one entry: blanked exactly when it has a value and a sensitive string name |
| `EnvRedaction.ContainsUpperIff` | cmd/kubectl-neo4j/bundle.go:487-495 | a word is found in a name exactly when it occurs somewhere in it, each letter in either case |
| `EnvRedaction.LooksSensitiveIff` | cmd/kubectl-neo4j/bundle.go:49 | a name is sensitive exactly when it contains, in any letter case, PASSWORD, PASSWD, SECRET, TOKEN, APIKEY, API_KEY, CREDENTIAL, PRIVATE_KEY or AUTH |
| `EnvRedaction.ExposedIff` | cmd/kubectl-neo4j/bundle.go:446-485 | the entries found are exactly the objects with a `value` and a sensitive string `name` in an array under the key `env` that lies in no other such array, at any depth |
| `EnvRedaction.SecretsWithheld` | cmd/kubectl-neo4j/bundle.go:43-49 | each of these shows `**REDACTED-BY-KUBECTL-NEO4J**` as its value afterwards |
| `EnvRedaction.NothingExposedRemains` | cmd/kubectl-neo4j/bundle.go:446-485 | every entry with a secret that lies in an env list not inside another env list, at any depth, shows the placeholder afterwards, and no other entry becomes one |
| `EnvRedaction.RestUnchanged` | cmd/kubectl-neo4j/bundle.go:446-485 | at every path that is not a withheld value the document keeps its scalar, keys or length, and gains nothing |
| `EnvRedaction.Idempotent` | cmd/kubectl-neo4j/bundle.go:446-485 | a second pass changes nothing |
| `FlagPermutation.PermuteArgs` | cmd/kubectl-neo4j/flags.go:59-99 | flags with the values they consume, one terminator, then the positional arguments |
| `FlagPermutation.FlagForms` | cmd/kubectl-neo4j/flags.go:52-54 | for flag.Parse, `-name` and `--name` are one flag, and what follows the first equals sign is its value |
| `FlagPermutation.FlagSets` | cmd/kubectl-neo4j/flags.go:52-54 | for flag.Parse, a flag sets the value behind its equals sign, else `true` when it is boolean, else the next argument |
| `FlagPermutation.FlagRefused` | cmd/kubectl-neo4j/flags.go:52-54 | the errors: a value the flag does not accept, a flag that is not defined, help, dashes without a name |
| `FlagPermutation.ParseFlagsCorrect` | cmd/kubectl-neo4j/flags.go:52-54 | parsing the permuted arguments sets the same flags in the same order, leaves the same positionals and fails on the same flag as parsing with flags anywhere, exactly when no flag that wants a value is reached as the last argument |
| `FlagPermutation.PermutedParsesAlike` | cmd/kubectl-neo4j/flags.go:59-99 | the equivalence, from any point of the command line on |
| `FlagPermutation.DanglingParsesOtherwise` | cmd/kubectl-neo4j/flags.go:88-97 | a dangling flag swallows the appended terminator: where parsing anywhere reports a missing argument, the flag is set to `--` and parsing succeeds with the same positionals, or fails because `--` is no value for it |
| `FlagPermutation.DanglingAlone` | cmd/kubectl-neo4j/flags.go:88-97 | the instance `-n` |
| `FlagPermutation.TakesWhatParsingUses` | cmd/kubectl-neo4j/flags.go:80-91 | permuting consumes a value exactly where flag parsing does |
| `FlagPermutation.Conserved` | cmd/kubectl-neo4j/flags.go:59-99 | no argument is lost or invented: the multiset of arguments is kept up to one added terminator |
| `FlagPermutation.IdempotentIff` | cmd/kubectl-neo4j/flags.go:59-99 | permuting twice is permuting once, exactly when the arguments do not end in a flag that wants a value |
| `WordWrap.WrapIndent` | cmd/kubectl-neo4j/diagnose.go:1175-1198 | the text is the rendering of the greedy lines over the fields; the early return gives exactly what the loop would |
| `WordWrap.TextOfLines` | cmd/kubectl-neo4j/diagnose.go:1175-1198 | on the text itself, cut at its newlines: the words of the first line, then for each further line exactly `indent` blanks and its words, together the words of the input; a line of two or more words has at most 78 bytes, the indent included, and no line has room for the first word of the next |
| `WordWrap.JoinedFromTheFront` | cmd/kubectl-neo4j/diagnose.go:1193-1195 | words on a line stand one blank apart |
| `WordWrap.LenIsEncodedLength` | cmd/kubectl-neo4j/diagnose.go:1178-1190 | widths are counted in bytes of the UTF-8 encoding |
| `WordWrap.NothingLost` | cmd/kubectl-neo4j/diagnose.go:1185-1197 | the fields of the output are the fields of the input, and every line is a single word or fits in 78 columns with the indent |
| `WordWrap.Optimal` | cmd/kubectl-neo4j/diagnose.go:1175-1198 | no split of the words in which every line of two or more words fits uses fewer lines |
| `WordWrap.FewestLinesOfText` | cmd/kubectl-neo4j/diagnose.go:1175-1198 | the wrapped text has no more newlines than the text of any such split of the same words |
| `WordWrap.NewlinesOfRendered` | cmd/kubectl-neo4j/diagnose.go:1185-1197 | the text of some lines has exactly one newline between two lines and no other |
| `WordWrap.OneLine` | cmd/kubectl-neo4j/diagnose.go:1178-1180 | words that fit together stay on one line |
| `ShellQuoting.QuotedReadsBack` | cmd/kubectl-neo4j/connect.go:129-132 | from any unquoted state a POSIX tokenizer reads the quoted query as exactly the query and ends unquoted |
| `ShellQuoting.OneShotTokens` | cmd/kubectl-neo4j/connect.go:119-138 | for every query, the command tokenizes to cypher-shell, -a, the address, -u, $DB_USERNAME, -p, $DB_PASSWORD, --non-interactive and the query as one word |
| `ShellQuoting.InteractiveTokens` | cmd/kubectl-neo4j/connect.go:119-120 | without a query, to the first seven of these |
| `ShellQuoting.WrappedTokens` | cmd/kubectl-neo4j/connect.go:162-172 | with TLS, for every query and for none, the tokens of that command stand between the tokens that build the trust store and those that remove it, all written out; nothing in a query can reach them |
| `AuraAdmission.LaterInHistory` | api/v1beta1/aurainstance_types.go:57-70 | over any number of accepted updates: what is immutable stays, what is set stays set, the tier only moves from professional-db to business-critical |
| `AuraAdmission.TierChangesOnce` | api/v1beta1/aurainstance_types.go:59 | the type changes at most once in a history, at one point, from professional-db to business-critical |
| `AuraAdmission.ProfessionalNeverMultiDatabase` | api/v1beta1/aurainstance_types.go:65-67 | an instance that is professional-db at any time is never multi-database, before or after |
| `AuraAdmission.ServerlessFromCreation` | api/v1beta1/aurainstance_types.go:70 | serverless analytics at any time means serverless at every time |
| `AuraAdmission.V2NeverHasV1Fields` | api/v1beta1/aurainstance_types.go:68 | an instance that is multi-database or serverless at any time never has secondariesCount, cdcEnrichmentMode, customerManagedKeyId or source |
| `AuraAdmission.TierLimits` | api/v1beta1/aurainstance_types.go:52-56 | present in any version of the object, secondariesCount and customerManagedKeyId fix the tier of every version; cdcEnrichmentMode leaves enterprise-db or business-critical, and professional-db before the upgrade; free-db is for good and never has storage, every other tier always has memory |
| `AuraAdmission.MultiDatabaseForGood` | api/v1beta1/aurainstance_types.go:65-71 | a multi-database instance is one in every version, on one supporting tier, and never vector-optimized |
| `AuraAdmission.PluginNeverReappears` | api/v1beta1/aurainstance_types.go:69-70 | once graphAnalytics is set it keeps its value and graphAnalyticsPlugin stays absent |
| `AuraAdmission.AnalyticsReachableIff` | api/v1beta1/aurainstance_types.go:70 | an instance created without graphAnalytics can still be brought to exactly `plugin` and `unavailable`, through edits of the deprecated field |
| `AuraAdmission.OneCredentialSource` | api/v1beta1/aurainstance_types.go:51 | every version names exactly one of providerConfigRef and credentialsSecretRef |
| `AuraAdmission.TierChangeAcceptedIff` | api/v1beta1/aurainstance_types.go:59 | a change of tier is accepted exactly from professional-db to business-critical, and there always |
| `AuraAdmission.FreeEditAcceptedIff` | api/v1beta1/aurainstance_types.go:52-71 | an edit of memory, storage, secondariesCount, cdcEnrichmentMode and vectorOptimized is accepted exactly when the tier and the way of creation allow the new values |
| `AuraAdmission.ValidIff` | api/v1beta1/aurainstance_types.go:51-71 | what is accepted at creation, tier by tier: the fields each tier needs and excludes, one source of credentials, and the exclusions of v2beta1, analytics and vector optimization |
| `AuraAdmission.AcceptedIff` | api/v1beta1/aurainstance_types.go:57-70 | an update is accepted exactly when its result is valid, keeps what is immutable or set, and sets graphAnalytics only in place of the equivalent plugin field |
| `BackupVerdict.BackupJobOutcome` | cmd/kubectl-neo4j/diagnose.go:906-921 | a true Failed condition decides, then Complete or a finished pod; failed attempts never do |
| `BackupVerdict.OwnerJob` | cmd/kubectl-neo4j/diagnose.go:884-889 | the first owner that is a controlling Job, or none |
| `BackupVerdict.CapFinishedAttempt` | cmd/kubectl-neo4j/diagnose.go:856-876 | the findings of a failed pod whose listed Job has not failed are softened, all others are kept |
| `BackupVerdict.DiagnoseBackup` | cmd/kubectl-neo4j/diagnose.go:767-840 | the symptoms reported, a problem among them exactly when a Job failed or a pod that still counts shows one, and counts that sum to the Jobs |
| `BackupVerdict.ProblemIff` | cmd/kubectl-neo4j/diagnose.go:767-840 | the report shows a problem exactly when a Job failed or a standing pod of the backup shows one |
| `BackupVerdict.VerdictIff` | cmd/kubectl-neo4j/diagnose.go:767-876 | in terms of the Jobs and pods themselves: a problem is reported exactly when a Job has a true Failed condition, or a pod of the backup shows one and is not a failed pod whose Job is listed without such a condition |
| `BackupVerdict.OutcomeIff` | cmd/kubectl-neo4j/diagnose.go:906-921 | a Job has failed exactly when a true Failed condition says so, else succeeded exactly when Complete does or a pod has finished |
| `BackupVerdict.FailedAttemptsDoNotDecide` | cmd/kubectl-neo4j/diagnose.go:782-786 | the outcome is the same for every number of failed attempts |
| `BackupVerdict.RunsForIff` | cmd/kubectl-neo4j/diagnose.go:880-890 | a pod belongs to the Job its label names, or without one to its first controlling Job owner |
| `BackupVerdict.SoftenedMarks` | cmd/kubectl-neo4j/diagnose.go:862-876 | a softened problem becomes a warning under a Job that succeeded and a note to wait under one in progress; nothing else of a symptom changes |
| `BackupVerdict.JobSymptomsAre` | cmd/kubectl-neo4j/diagnose.go:787-822 | a Job is reported exactly when it failed or had failed attempts, with the mark its outcome calls for |
| `BackupVerdict.SupersededPodsDoNotInterfere` | cmd/kubectl-neo4j/diagnose.go:843-876 | pod lists that differ only in failed pods of listed Jobs that have not failed are reported with the same verdict, whatever diagnosePod finds in them |
| `BackupVerdict.RenderDiagnosis` | cmd/kubectl-neo4j/diagnose.go:1111-1143 | the exit code says whether some resource has a problem, with and without quiet |
| `ClusterTopology.PrimariesIff` | internal/resources/cluster.go:3074-3115 | an accepted topology has a server that may start as a primary exactly when it has hints or its serverModeConstraint is not SECONDARY |
| `ClusterTopology.NoPrimariesAccepted` | api/v1beta1/neo4jenterprisecluster_types.go:1653-1655 | three servers with serverModeConstraint SECONDARY and no hints are accepted, and no server may host primaries |
| `ClusterTopology.HintsLeaveAPrimary` | api/v1beta1/neo4jenterprisecluster_types.go:1653-1655 | an accepted topology with hints always leaves such a server, although the rule only forbids listing all as SECONDARY |
| `ClusterTopology.DocumentedIff` | docs/user_guide/clustering.md:248-257 | every server starts in the documented mode (a hint overrides the global constraint for its server only) exactly when there are no hints, no global constraint, or a hint for every server |
| `ClusterTopology.HintTurnsConstraintOff` | internal/resources/cluster.go:3074-3115 | three servers, serverModeConstraint PRIMARY and one hint for server 0 are accepted; server 1 starts without a constraint where PRIMARY is documented |
| `ClusterTopology.ScriptedIs` | internal/resources/cluster.go:3086-3092 | the startup script gives a server the mode of its own hint, and no constraint without one |
| `ClusterTopology.AllPinned` | api/v1beta1/neo4jenterprisecluster_types.go:1653-1655 | if every server is pinned to SECONDARY then there is a hint for every server and every hint says SECONDARY |
| `ClusterTopology.FloorProperties` | api/v1beta1/neo4jenterprisecluster_types.go:1640-1646 | the system-primary floor lies in [2, servers], is the explicit value when one is accepted, and never sinks as servers grows |
| `ClusterTopology.FloorIs` | api/v1beta1/neo4jenterprisecluster_types.go:1640-1646 | unset, the floor is 2 for two servers and 3 for more; a set value counts as it is |
| `ClusterTopology.AcceptedBounds` | api/v1beta1/neo4jenterprisecluster_types.go:1653-1672 | 2 to 100 servers, a floor from 2 to the number of servers, hints in range and not twice for one server, not all SECONDARY |

## Left out

- Reconcilers, the Aura API client and status handling under `internal/`: they act on clusters and services that are not modelled.
- The cache-manager branch of `runManager`, manager construction, health probes and startup output: plumbing around the protocol.
- The reconnect backoff of the watcher: a failed attempt to open the watch changes no modelled state.
- Real time, fairness and the delay of API calls: `CatchesUp` bounds the number of steps under every schedule, not their duration.
- `diagnosePod` itself, and the wording of details and actions in the report: the verdict is proved for every such function, and symptoms carry a short fixed text.
- `selectJobs`: `DiagnoseBackup` takes the Jobs it returns.
- YAML and JSON decoding, CRD loading and the choice of schema version: the walk starts from a decoded document and schema; a raw default is absent, undecodable or a JSON value.
- Redaction outside env lists (`Secret` data and annotations): fixed-path writes. Notes carry the owner and the variable name instead of formatted text.
- Parameter and command expansion in the shell: the tokenizer follows the quoting rules and keeps `$` as text. The theorems about the command take an address without quotes, blanks and operators, as Kubernetes names give.
- `flag.Parse` beyond the settings made, the positional arguments and the error: usage output is not modelled.
- AuraInstanceSpec fields that no rule reads, and ratcheting of pre-existing violations by the API server.
- The remaining subcommands (status, preflight, validate, export, explain): tables, getters and terminal output.
