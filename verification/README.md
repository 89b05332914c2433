# Verified model of the dcode app server

This project models, in Dafny, the parts of the `dcode-rs` app server where
behaviour spans many functions or many steps, and proves what these parts keep
over every input or every run. `dafny verify dfyconfig.toml` checks it.

There are four groups of modules.

**Schema export and TypeScript filtering** (`Json`, `RefRewriting`, `Worklists`,
`SchemaBundle`, `FlatSchema`, `FlatMeaning`, `BundleMeaning`, `BundleContents`,
`ExportMeaning`, `VariantStripping`,
`ExperimentalPruning`, `Sorting`, `Canonical`, `Text`, `TypeScriptFilter`,
`TypeScriptRoundTrip`, `TypeScriptFields`, `TypeScriptText`). The exporter rewrites `$ref`s into
namespaces, merges schemas into a bundle, flattens the `v2` namespace, follows
references with two worklists, prunes experimental variants, and compares files by a
canonical form. A hand-written scanner splits generated TypeScript at top level.

**Event and request transport** (`Events`, `Handshake`, `Delivery`, `Pipeline`,
`Requests`). The
websocket client and the in-process client hand events to a consumer through bounded
queues, dropping most when full and announcing the drops later, but waiting with
terminal ones. Responses are matched to the requests that wait for them. The workers
are step systems: a program counter says what a worker holds while it waits, and the
environment decides when a consumer takes, hangs up, or a write fails.

**Server tables** (`Subscriptions`, `ListenerSlot`, `CommandSessions`,
`OutputCapture`, `Connections`, `TurnOutcome`). Which connection follows which thread,
which process belongs to which connection, what the outbound loop knows of the
connections, and what becomes of each turn.

**Patch application** (`SeekSequence`, with `Text`). Locating the lines of a patch.

Code that updates state in place is modelled by classes and methods proved against
specification functions; what is promised about these functions is proved as lemmas.
`&mut` rewriting of JSON trees is modelled by functions from tree to tree.

## Where the code differs from what is written or hoped about it

- `seek_sequence.rs:1-11` promises a match at or after `start`, and with `eof` a fallback from the
  end of the file to `start`. With `eof` the code looks at the end alone and does not mind `start`
  (`SeekSequence.DocumentedIff` says when the result is the documented one all the same,
  `EofHasNoFallback` and `EofIgnoresStart` are inputs for which it is not).
- `collect_non_v2_refs` takes the whole text after `#/definitions/` for a name, so a root
  reference into a definition pulls nothing in. A bundle is flattened iff every root reference
  starts from a definition that is in v2, shared, or pulled in by whole references
  (`FlatMeaning.ResolvingAcceptedIff`); `FlatMeaning.TailedReferenceRefused` is a tidy bundle, with
  a reference that leads somewhere, which is refused.
- Worse, if v2 has another schema of that name, the bundle is accepted and the reference leads into
  that one (`FlatMeaning.DisplacedLeadsIntoV2`, `FlatMeaning.TailedReferenceChangesMeaning`).
  `FlatMeaning.TidyFlattens` says exactly which references keep their meaning. Bundles from the
  builder have no such reference (`ExportMeaning.BuiltFlattens`).
- A v2 reference that leads nowhere in the nested bundle can lead to a root definition after
  flattening, so the closing checks do not find it missing. Of what the builder makes these are the
  only references whose meaning flattening changes (`ExportMeaning.BuiltFlattens`, an instance is
  `ExportMeaning.StrayReferenceArrives`).
- `rewrite_ref_prefix` replaces wherever the prefix occurs, so a reference into another document is
  rewritten too (`FlatMeaning.DeprefixIsIff`, `FlatMeaning.ForeignReferenceRewritten`).
- References are sent into a namespace whether or not anything was placed there, so the bundle
  builder can make them dangle: exactly those for which no schema contributed an entry of that name,
  or whose entry has nothing at the rest of the path (`BundleMeaning.OwnReferenceResolvesIff` for
  namespaced schemas, `BundleMeaning.KnownReferenceResolvesIff` for root schemas). Instances are a
  special or ignored definition of a schema's own (`BundleMeaning.LeftOutReferenceDangles`) and a
  definition such as `Foo2` beside a namespaced `Foo` (`BundleMeaning.NumberedReferenceDangles`).
- With a second definition map beside the top-level one, stripping variants can leave
  dangling a reference that resolved before (`VariantStripping.StrippingResolvesIff`,
  `VariantStripping.SecondMapDangles`).
- Pruning tests an item before it prunes its children, so a variant hidden in an `enum`
  array can make one pass miss another (`ExperimentalPruning.PruneIdempotentIff`,
  `ExperimentalPruning.HiddenVariantMissed`).
- Namespace lookup strips trailing digits, so a type called `v` breaks idempotence for the
  namespace `v2` (`RefRewriting.ToKnownNamespaceIdempotent`, `RefRewriting.ToKnownNamespaceNotIdempotent`).
- Filtering a type whose brackets are not balanced can lose its braces
  (`TypeScriptFields.EverySelectionKeepsBracesIff`, `TypeScriptFields.UnbalancedBodyLosesBraces`).
- The lag markers of the in-process client count only the client's own drops; drops at the
  runtime's queue are silent (`Pipeline.PositionIsPlaceIff`, `Pipeline.CountIsCompleteIff`).
- The in-process client ignores whether its refusal of a dropped server request got through, and
  drops without an answer a request that finds the consumer gone. These are the only two ways for a
  request to get no answer (`Delivery.InProcessAccount`), and both happen
  (`Delivery.InProcessRefusalCanBeLost`, `Delivery.InProcessRequestCanFindConsumerGone`).
- In process, a connection is marked ready before its opt-outs and experimental flag are mirrored:
  for a moment the mark is wrong iff an initialize that is accepted asks for something other than
  what is mirrored (`Connections.InProcessReadyTooEarlyIff`, `Connections.FirstInitializeTooEarlyIff`).

## Model

| member | source | states |
|---|---|---|
| `Json.MapRefsForward` | dcode-rs/app-server-protocol/src/export.rs:1508-1530 | each reference of a tree is, rewritten, a reference of the rewritten tree |
| `Json.MapRefsBackward` | dcode-rs/app-server-protocol/src/export.rs:1508-1530 | each reference of a rewritten tree comes from one of the original tree |
| `Json.MapRefsCompose` | dcode-rs/app-server-protocol/src/export.rs:1141-1158 | rewriting twice is rewriting once with the composed rewriting |
| `Json.MapRefsFixed` | dcode-rs/app-server-protocol/src/export.rs:1141-1158 | a rewriter leaves a tree alone iff it fixes every reference in it |
| `Json.MapRefsIdempotent` | dcode-rs/app-server-protocol/src/export.rs:1542-1567 | a rewriter is idempotent on a tree iff it is so on each of the tree's references |
| `RefRewriting.ReplaceAllIsPrefixRewriteIff` | dcode-rs/app-server-protocol/src/export.rs:1141-1158 | `str::replace` of a prefix by something shorter is the rewriting of the prefix iff the pattern does not occur after the first character |
| `RefRewriting.ToNamespaceIdempotent` | dcode-rs/app-server-protocol/src/export.rs:1508-1530 | rewriting into one namespace is idempotent on every tree |
| `RefRewriting.ToKnownNamespaceIdempotent` | dcode-rs/app-server-protocol/src/export.rs:1542-1603 | rewriting into the known namespaces is idempotent iff no reference goes to a namespace that is itself looked up as a type |
| `RefRewriting.ToKnownNamespaceNotIdempotent` | dcode-rs/app-server-protocol/src/export.rs:1591-1603 | a type `v` in namespace `v2` breaks that idempotence |
| `RefRewriting.NamedMoves` | dcode-rs/app-server-protocol/src/export.rs:1861-1886 | references to a name or below it, and no others, get the namespace in front |
| `Worklists.LeastClosedIsReachability` | dcode-rs/app-server-protocol/src/export.rs:1119-1139 | the least closed set is the set of names reached by a path of references |
| `Worklists.LeastClosedUnique` | dcode-rs/app-server-protocol/src/export.rs:1119-1139 | there is only one least closed set |
| `Worklists.CollectDefinitionDependencies` | dcode-rs/app-server-protocol/src/export.rs:1119-1139 | the stack loop ends with exactly the least set of names closed under non-v2 references |
| `Worklists.Enqueue` | dcode-rs/app-server-protocol/src/export.rs:1447-1467 | each name met for the first time is marked and queued, others are not queued again |
| `Worklists.DrainQueue` | dcode-rs/app-server-protocol/src/export.rs:1389-1398 | the marking loop ends with exactly the least set closed under local references |
| `Worklists.ReachableLocalDefinitions` | dcode-rs/app-server-protocol/src/export.rs:1383-1467 | the marked definitions are the least closed set over what the root mentions outside its maps, and none without a map |
| `VariantStripping.StripMethodVariants` | dcode-rs/app-server-protocol/src/export.rs:1347-1365 | of the `oneOf` items just those stay, in order, whose `properties.method` names none of the methods; definitions kept are as they were and exactly the reachable ones, and nothing else changes; with a single definition map the schema returned is exact |
| `VariantStripping.VariantMeans` | dcode-rs/app-server-protocol/src/export.rs:1367-1381 | an item is a variant of a set of methods iff the string `const` of its `properties.method`, or without one the first string of its `enum`, is among them |
| `VariantStripping.BothFormsAreVariants` | dcode-rs/app-server-protocol/src/export.rs:1651-1658 | a variant of each of the two forms |
| `VariantStripping.OthersKept` | dcode-rs/app-server-protocol/src/export.rs:1347-1365 | the items kept are those at the places of no variant, in order |
| `VariantStripping.StrippingOnly` | dcode-rs/app-server-protocol/src/export.rs:1347-1365 | whatever stripping returns differs from the schema in its variants and dropped definitions only |
| `VariantStripping.KeepsResolvingIff` | dcode-rs/app-server-protocol/src/export.rs:1347-1365 | stripping makes no resolving reference dangle iff what nested maps mention is marked too |
| `VariantStripping.StrippingIsExact` | dcode-rs/app-server-protocol/src/export.rs:1347-1467 | with a single definition map the schema returned has no new dangling reference, and a definition stays iff a chain of remaining references needs it |
| `VariantStripping.StrippingResolvesIff` | dcode-rs/app-server-protocol/src/export.rs:1347-1467 | for the schema returned: what resolved still does iff each name mentioned outside the definitions, in another map too, is reached from outside all maps |
| `VariantStripping.SecondMapDangles` | dcode-rs/app-server-protocol/src/export.rs:1400-1423 | a schema with a variant list and a second map, whose stripping drops a definition in use, whatever the methods |
| `FlatSchema.PullDependencies` | dcode-rs/app-server-protocol/src/export.rs:1072-1079 | root definitions join the v2 map only under names that are free there |
| `FlatSchema.DefinitionNamesSurvive` | dcode-rs/app-server-protocol/src/export.rs:1141-1158 | rewriting references renames no definition |
| `FlatSchema.CheckFlat` | dcode-rs/app-server-protocol/src/export.rs:1160-1231 | the closing checks pass iff no reference keeps the prefix and every referenced name is defined; failures name a culprit or all missing names |
| `FlatSchema.BuildFlatV2Schema` | dcode-rs/app-server-protocol/src/export.rs:1041-1089 | the result is the rewriting of v2, pulled-in and shared definitions, given iff it passes the checks; every other member of the bundle is kept, the title gets `V2` appended; each malformed bundle has its error |
| `FlatSchema.FlatRest` | dcode-rs/app-server-protocol/src/export.rs:1054-1089 | every member but title and definitions is the bundle's, references rewritten |
| `FlatSchema.FlatRetitled` | dcode-rs/app-server-protocol/src/export.rs:1054-1089 | the title is the bundle's own with `V2` appended, or the default one |
| `FlatSchema.FlatHasDefinitions` | dcode-rs/app-server-protocol/src/export.rs:1059-1081 | name by name: where each definition of the flat bundle comes from |
| `FlatSchema.CollectedMeans` | dcode-rs/app-server-protocol/src/export.rs:1059-1117 | which names are collected, told from the references of the two shared roots |
| `FlatMeaning.StepRewritten` | dcode-rs/app-server-protocol/src/export.rs:1141-1158 | one step in a rewritten tree gives the rewritten child, also where the step goes into `$ref` itself |
| `FlatMeaning.VisitRewritten` | dcode-rs/app-server-protocol/src/export.rs:1141-1158 | the place a path leads to in a rewritten tree is the rewriting of the place it led to, for every path |
| `FlatMeaning.DeprefixIsIff` | dcode-rs/app-server-protocol/src/export.rs:1141-1158 | only the prefix `#/definitions/v2/` of a reference is rewritten iff it occurs at the start or nowhere |
| `FlatMeaning.ForeignReferenceRewritten` | dcode-rs/app-server-protocol/src/export.rs:1141-1158 | a reference into another document lacks the prefix and is rewritten all the same |
| `FlatMeaning.FollowDefinition` | dcode-rs/app-server-protocol/src/export.rs:1141-1158 | a reference under `#/definitions/` is a path into the definitions map |
| `FlatMeaning.SameTargetIff` | dcode-rs/app-server-protocol/src/export.rs:1041-1089 | exactly when flattening leaves the definition a reference is about in place |
| `FlatMeaning.FlatteningPreservesMeaning` | dcode-rs/app-server-protocol/src/export.rs:1041-1231 | the rewritten reference leads, in the flat bundle, to the rewriting of the place the original led to in the nested one, for every path |
| `FlatMeaning.LandsIff` | dcode-rs/app-server-protocol/src/export.rs:1160-1231 | when a rewritten reference passes the closing checks, in terms of the original one |
| `FlatMeaning.AcceptedIff` | dcode-rs/app-server-protocol/src/export.rs:1160-1231 | flattening succeeds iff every reference of what it assembles lands |
| `FlatMeaning.DisplacedLeadsIntoV2` | dcode-rs/app-server-protocol/src/export.rs:1059-1081 | a reference whose head does not keep its place leads, after flattening, into the v2 schema of that name, and nowhere without one |
| `FlatMeaning.ResolvingAcceptedIff` | dcode-rs/app-server-protocol/src/export.rs:1091-1231 | a resolving bundle is flattened iff every root reference carried over starts from a definition in v2, shared, or reached by a chain of whole references |
| `FlatMeaning.TidyFlattens` | dcode-rs/app-server-protocol/src/export.rs:1041-1231 | on a tidy bundle flattening succeeds iff these heads are included, and a reference keeps its meaning iff its head keeps its place or v2 holds the same at its path |
| `FlatMeaning.WholeReferencesFlatten` | dcode-rs/app-server-protocol/src/export.rs:1041-1231 | a tidy bundle whose root references name definitions as a whole is flattened, and every reference keeps its meaning |
| `FlatMeaning.TailedReferenceRefused` | dcode-rs/app-server-protocol/src/export.rs:1091-1117 | a tidy bundle whose shared root refers to `#/definitions/X/properties/p`: the reference leads somewhere, and flattening is refused |
| `FlatMeaning.TailedReferenceChangesMeaning` | dcode-rs/app-server-protocol/src/export.rs:1072-1117 | with another `X` in v2 the bundle is accepted and the reference leads to something else |
| `SchemaBundle.ClaimNames` | dcode-rs/app-server-protocol/src/export.rs:1569-1589 | a schema claims the names nobody claimed before it |
| `SchemaBundle.CollectNamespacedTypes` | dcode-rs/app-server-protocol/src/export.rs:1569-1589 | every type name goes to the first namespace that claims it |
| `SchemaBundle.InsertEntry` | dcode-rs/app-server-protocol/src/export.rs:1233-1276 | inserting keeps each namespace map exactly the set of its entries and fails only on a real collision, which the error names |
| `SchemaBundle.AddNamespaced` | dcode-rs/app-server-protocol/src/export.rs:946-1027 | a namespaced schema adds itself and its definitions, in whatever order, or collides |
| `SchemaBundle.ForcedPassIdle` | dcode-rs/app-server-protocol/src/export.rs:1861-1886 | retargeting a root schema's own routed definitions changes nothing after the rewriting into known namespaces |
| `SchemaBundle.AddRootDefinitions` | dcode-rs/app-server-protocol/src/export.rs:946-1027 | exactly the unrouted definitions of a root schema are added, the routed ones remembered |
| `SchemaBundle.AddRoot` | dcode-rs/app-server-protocol/src/export.rs:946-1027 | a root schema adds itself and its unrouted definitions at the root; what these are is `BundleContents.AdditionsMean` |
| `SchemaBundle.AddSchema` | dcode-rs/app-server-protocol/src/export.rs:946-1027 | one loop round adds exactly the contributions of one schema |
| `SchemaBundle.BuildSchemaBundle` | dcode-rs/app-server-protocol/src/export.rs:946-1027 | success iff equal names carry equal schemas, a failure names a place two schemas disagree on, and a bundle is what `BundleContents` says of it |
| `SchemaBundle.ContributionsOrderFree` | dcode-rs/app-server-protocol/src/export.rs:946-1027 | permuting the schemas permutes nothing in the set of contributions |
| `SchemaBundle.NamespacesOrderFree` | dcode-rs/app-server-protocol/src/export.rs:946-1027 | permuting the schemas leaves the namespace maps unchanged |
| `BundleContents.SkippedMeans` | dcode-rs/app-server-protocol/src/export.rs:40-47 | the ignored and the special definition names, written out |
| `BundleContents.TypesMean` | dcode-rs/app-server-protocol/src/export.rs:1569-1589 | a name has a namespace iff some namespaced schema has it for its own or in one of its two definition maps, and then that of the first such schema |
| `BundleContents.NamespaceForMeans` | dcode-rs/app-server-protocol/src/export.rs:1591-1603 | a name is looked up by itself, else without the digits it ends in |
| `BundleContents.AdditionsMean` | dcode-rs/app-server-protocol/src/export.rs:981-1001 | a root schema adds itself and each definition that is not ignored or special and, unless the schema is from the v1 directory, has no known namespace: annotated, references sent into the known namespaces |
| `BundleContents.RootContents` | dcode-rs/app-server-protocol/src/export.rs:981-1001 | over every list of schemas: outside the namespaces the bundle has, name by name, what the last root schema to put something there put, and nothing else |
| `BundleContents.NothingLost` | dcode-rs/app-server-protocol/src/export.rs:997-1001 | no definition that a root schema adds is missing from the bundle |
| `BundleContents.RootReferenceResolves` | dcode-rs/app-server-protocol/src/export.rs:981-1001 | a root schema's reference to a name without a namespace stays, tail and all, and leads into what the last root schema to define it put there, or nowhere if none did |
| `BundleContents.RootNameResolves` | dcode-rs/app-server-protocol/src/export.rs:997-1001 | `#/definitions/` and the name of a definition kept at the root lead to that definition |
| `BundleContents.NamespaceContents` | dcode-rs/app-server-protocol/src/export.rs:962-995 | over every list of schemas a namespace has a schema under a name iff some schema of the list placed it there |
| `BundleContents.ConsistentMeans` | dcode-rs/app-server-protocol/src/export.rs:1233-1276 | the contributions agree iff no two schemas place different ones under one name of one namespace |
| `BundleContents.BuiltAsPlaced` | dcode-rs/app-server-protocol/src/export.rs:946-1027 | for whatever the builder makes: its root and its namespaces have just what the schemas put there |
| `BundleContents.BundleHeaded` | dcode-rs/app-server-protocol/src/export.rs:1014-1027 | the members of the bundle besides its definitions |
| `BundleMeaning.EntryResolves` | dcode-rs/app-server-protocol/src/export.rs:946-1027 | in the assembled bundle the reference to a placed schema leads to that schema |
| `BundleMeaning.OwnReferenceResolves` | dcode-rs/app-server-protocol/src/export.rs:962-995 | a namespaced schema's reference to its own definition leads to that definition as placed unless it is ignored or special, and resolves iff something was placed under its name |
| `BundleMeaning.OwnReferenceResolvesIff` | dcode-rs/app-server-protocol/src/export.rs:1508-1530 | any reference of a namespaced schema, tail and all, resolves iff an entry was placed under the name it starts with and has something at the tail, and leads to that |
| `BundleMeaning.KnownReferenceResolvesIff` | dcode-rs/app-server-protocol/src/export.rs:1532-1567 | a reference sent into a known namespace, tail and all, resolves iff some schema contributed an entry of that namespace and name that has something at the tail, and leads to that |
| `BundleMeaning.NumberedIsBundled` | dcode-rs/app-server-protocol/src/export.rs:946-1027 | a root schema that defines `Foo2` and refers to it, beside a namespaced `Foo`, is bundled without collision, and its reference resolves by itself |
| `BundleMeaning.NumberedReferenceStands` | dcode-rs/app-server-protocol/src/export.rs:1591-1603 | in the bundle the reference to `Foo2` stands in the root schema, rewritten into the namespace of `Foo` |
| `BundleMeaning.NumberedReferenceDangles` | dcode-rs/app-server-protocol/src/export.rs:981-1001 | and there it leads nowhere |
| `BundleMeaning.LeftOutIsBundled` | dcode-rs/app-server-protocol/src/export.rs:962-979 | a namespaced schema that refers to a special or ignored definition of its own is bundled without collision; its reference resolves by itself and stands in the bundle, retargeted |
| `BundleMeaning.LeftOutReferenceDangles` | dcode-rs/app-server-protocol/src/export.rs:962-979 | and in the bundle it leads nowhere |
| `BundleMeaning.ReferencesPointInside` | dcode-rs/app-server-protocol/src/export.rs:1508-1530 | after retargeting every definition reference points into the namespace and keeps the rest of its path |
| `ExportMeaning.BuiltSettled` | dcode-rs/app-server-protocol/src/export.rs:1532-1567 | no definition reference in an assembled bundle starts from a name with a known namespace |
| `ExportMeaning.BuiltIsClean` | dcode-rs/app-server-protocol/src/export.rs:946-1027 | in an assembled bundle no root reference starts from a v2 name, and v2 has no name of a shared root or a namespace |
| `ExportMeaning.CleanFlattens` | dcode-rs/app-server-protocol/src/export.rs:1041-1231 | a clean bundle is flattened iff each reference's definition arrives in the flat map, and a reference keeps its meaning iff it is not a v2 reference to a name only a root definition has |
| `ExportMeaning.BuiltFlattens` | dcode-rs/app-server-protocol/src/export.rs:946-1231 | so it is with every bundle built of plainly named schemas, in whatever order, and no name clash can occur in it |
| `ExportMeaning.StrayReferenceArrives` | dcode-rs/app-server-protocol/src/export.rs:1041-1231 | two schemas whose bundle has a dangling v2 reference, which flattening accepts and makes lead to a shared root |
| `ExportMeaning.GenerateBundles` | dcode-rs/app-server-protocol/src/export.rs:225-239 | when both bundles are made, the first has what the schemas put there, the second keeps its other members, and every reference carried over that leads somewhere in the first leads to the same in the second; bundling fails iff two contributions disagree |
| `ExperimentalPruning.PruneKeepsSurvivors` | dcode-rs/app-server-protocol/src/export.rs:503-518 | a pruned array is its surviving items in order, each with its own pruning only |
| `ExperimentalPruning.PruneFixedIffClean` | dcode-rs/app-server-protocol/src/export.rs:503-518 | pruning leaves a tree alone iff no array in it holds an experimental variant |
| `ExperimentalPruning.ExperimentalAfterPruning` | dcode-rs/app-server-protocol/src/export.rs:503-543 | when pruning its own children turns an item into a variant |
| `ExperimentalPruning.PruneCleanIff` | dcode-rs/app-server-protocol/src/export.rs:494-543 | one pass leaves no variant at any depth iff no kept item is such a hazard |
| `ExperimentalPruning.PruneIdempotentIff` | dcode-rs/app-server-protocol/src/export.rs:494-543 | pruning is idempotent iff no kept item is such a hazard |
| `ExperimentalPruning.PruneExact` | dcode-rs/app-server-protocol/src/export.rs:494-543 | with scalar `enum` arrays pruning is exact and idempotent |
| `ExperimentalPruning.HiddenVariantMissed` | dcode-rs/app-server-protocol/src/export.rs:505-509 | a variant inside an `enum` makes one pass miss another |
| `ExperimentalPruning.ExperimentalMeans` | dcode-rs/app-server-protocol/src/export.rs:520-543 | an item is experimental iff the string `const` of its `properties.method`, or without one the only entry of its `enum`, is an experimental method |
| `Sorting.SortSorts` | dcode-rs/app-server-protocol/src/schema_fixtures.rs:148-204 | sorting by rank gives a sorted permutation |
| `Sorting.SortOrderFree` | dcode-rs/app-server-protocol/src/schema_fixtures.rs:148-204 | sorting forgets the order it was given, where ranks tell items apart |
| `Sorting.StringLeMeans` | dcode-rs/app-server-protocol/src/schema_fixtures.rs:148-204 | the order of texts: by the first character in which they differ, a prefix first |
| `Canonical.ArrayItemsKept` | dcode-rs/app-server-protocol/src/schema_fixtures.rs:148-204 | an array keeps its multiset of canonical items |
| `Canonical.SortKeySurvives` | dcode-rs/app-server-protocol/src/schema_fixtures.rs:206-223 | canonicalising a value keeps its sort key |
| `Canonical.EquivalentSameForm` | dcode-rs/app-server-protocol/src/schema_fixtures.rs:148-223 | equivalent trees have the same canonical form |
| `Canonical.SameFormEquivalent` | dcode-rs/app-server-protocol/src/schema_fixtures.rs:148-223 | trees with the same canonical form are equivalent |
| `Canonical.CanonicalizeDecides` | dcode-rs/app-server-protocol/src/schema_fixtures.rs:148-223 | canonical forms are equal iff the trees differ only in member order and in the order of arrays whose items are all scalars or objects with a string `$ref` or `title` |
| `Canonical.NameableMeans` | dcode-rs/app-server-protocol/src/schema_fixtures.rs:206-223 | just scalars and objects with a string `$ref` or `title` have a sort key |
| `Canonical.ScalarKeys` | dcode-rs/app-server-protocol/src/schema_fixtures.rs:206-223 | the sort keys of scalars, written out |
| `Canonical.ObjectKeys` | dcode-rs/app-server-protocol/src/schema_fixtures.rs:206-223 | the sort key of an object: its reference, or without one its title |
| `Canonical.TitledEitherWay` | dcode-rs/app-server-protocol/src/schema_fixtures.rs:206-223 | an array of two titled objects has one canonical form in either order |
| `Canonical.ItemsInOrder` | dcode-rs/app-server-protocol/src/schema_fixtures.rs:148-204 | items of a reorderable array come out in the order of their keys, ties by their text |
| `Canonical.MembersInOrder` | dcode-rs/app-server-protocol/src/schema_fixtures.rs:148-204 | members of an object come out in the order of their names |
| `Canonical.CanonicalizeIdempotent` | dcode-rs/app-server-protocol/src/schema_fixtures.rs:148-204 | canonicalisation is idempotent |
| `TypeScriptFilter.ScanState.Observe` | dcode-rs/app-server-protocol/src/export.rs:890-925 | the in-place scanner makes the step of the scan function, strings, escapes and clamped depths included |
| `TypeScriptFilter.DepthBounded` | dcode-rs/app-server-protocol/src/export.rs:890-944 | no depth exceeds the number of characters scanned |
| `TypeScriptFilter.SplitTopLevelMulti` | dcode-rs/app-server-protocol/src/export.rs:761-780 | the loop returns the trimmed, non-empty stretches between top-level delimiters |
| `TypeScriptText.PieceReturns` | dcode-rs/app-server-protocol/src/export.rs:883-944 | a matching pair of any of the four brackets, or a string with its escapes, leaves the scanner as it was, and no delimiter within splits |
| `TypeScriptText.FieldsSplit` | dcode-rs/app-server-protocol/src/export.rs:757-780 | fields written of matching brackets, strings and other characters, joined by a separator, are split into precisely these fields |
| `TypeScriptText.OnlyItsOwnCloses` | dcode-rs/app-server-protocol/src/export.rs:890-944 | a closing bracket of another kind leaves a bracket open, and nothing after it splits |
| `TypeScriptText.StrayCloserIgnored` | dcode-rs/app-server-protocol/src/export.rs:890-944 | a closing bracket with nothing to close is ignored |
| `TypeScriptText.BodyIsFound` | dcode-rs/app-server-protocol/src/export.rs:738-755 | the span found is that of the first group in braces outside other brackets and strings |
| `TypeScriptText.FieldsFiltered` | dcode-rs/app-server-protocol/src/export.rs:373-398 | a type written so is filtered to the fields wanted, in order, between the same braces |
| `TypeScriptText.ArmsFiltered` | dcode-rs/app-server-protocol/src/export.rs:308-331 | and a request union to the arms wanted, between the first `=` and the last `;` |
| `TypeScriptRoundTrip.SplitSelectJoin` | dcode-rs/app-server-protocol/src/export.rs:757-780 | for every text, joining any in-order selection of its parts and splitting again gives exactly that selection |
| `TypeScriptRoundTrip.FilterBodyExact` | dcode-rs/app-server-protocol/src/export.rs:308-398 | a rewritten body holds precisely the surviving parts, and rewriting it twice is rewriting it once |
| `TypeScriptRoundTrip.FiltersQualify` | dcode-rs/app-server-protocol/src/export.rs:308-398 | the delimiters and separators of both filters meet the conditions of the round trip |
| `TypeScriptRoundTrip.FilterPicks` | dcode-rs/app-server-protocol/src/export.rs:308-398 | the filter keeps the parts wanted, each at its place, in order |
| `TypeScriptRoundTrip.JoinOneMore` | dcode-rs/app-server-protocol/src/export.rs:308-398 | one separator stands between each two parts |
| `TypeScriptRoundTrip.AliasIs` | dcode-rs/app-server-protocol/src/export.rs:709-719 | a type alias is cut at the first `=` and the last `;` |
| `TypeScriptRoundTrip.AliasStable` | dcode-rs/app-server-protocol/src/export.rs:709-719 | replacing the body of an alias does not move where it is cut |
| `TypeScriptRoundTrip.FilterClientRequestExact` | dcode-rs/app-server-protocol/src/export.rs:308-331 | for every file the filtered union holds precisely the surviving arms, its surroundings stay, and filtering is idempotent |
| `TypeScriptFields.FindTopLevelBraceSpan` | dcode-rs/app-server-protocol/src/export.rs:738-755 | the loop finds the span the scan function describes |
| `TypeScriptFields.SpanParts` | dcode-rs/app-server-protocol/src/export.rs:738-755 | a found span is text without one, an opening at the top, an enclosed body and the brace back to the top |
| `TypeScriptFields.SpanIs` | dcode-rs/app-server-protocol/src/export.rs:738-755 | and such a text has its span just there |
| `TypeScriptFields.SpanAroundIff` | dcode-rs/app-server-protocol/src/export.rs:738-755 | a body put between braces at the top has its span just there iff it stays between them |
| `TypeScriptFields.FilterFieldsExact` | dcode-rs/app-server-protocol/src/export.rs:373-398 | for every text with a span, its result holds precisely the surviving fields; the braces are found again in their places iff these fields stay between them, and then filtering again changes nothing |
| `TypeScriptFields.BalancedStaysGood` | dcode-rs/app-server-protocol/src/export.rs:373-398 | for a body balanced by itself they always do |
| `TypeScriptFields.EverySelectionKeepsBracesIff` | dcode-rs/app-server-protocol/src/export.rs:373-398 | whatever fields are dropped the braces stay in their places iff each field stays between them, alone and after any one field before it |
| `TypeScriptFields.UnbalancedBodyLosesBraces` | dcode-rs/app-server-protocol/src/export.rs:738-755 | without balance dropping a field can leave a text without a span |
| `Events.LayersAgree` | dcode-rs/app-server-client/src/lib.rs:96-113 | client and runtime hold the same events terminal: turn completions and six method names |
| `Handshake.Initialize` | dcode-rs/app-server-client/src/remote.rs:636-757 | what is kept are the notifications and known requests before the answer to `initialize`, in order, and what is refused the unknown requests; each way to fail has its error, and a worker may start from the result |
| `Delivery.RunsAreSound` | dcode-rs/app-server-client/src/remote.rs:766-850 | every step of every run keeps counting, terminal events, stream end and the account of requests |
| `Delivery.ConsumerDecodes` | dcode-rs/app-server-client/src/remote.rs:766-828 | counting events and markers finds each delivered event where it was received; received is delivered, announced, pending, in hand or uncountable |
| `Delivery.GapsAreAnnounced` | dcode-rs/app-server-client/src/lib.rs:400-485 | delivered events keep their order, and the markers between two count exactly the drops between them |
| `Delivery.TerminalEventsSurvive` | dcode-rs/app-server-client/src/remote.rs:766-828 | no terminal event is dropped while the consumer is there; after a delivered `Disconnected` nothing is pending |
| `Delivery.NoRequestVanishes` | dcode-rs/app-server-client/src/remote.rs:288-339 | each server request is handed over, refused as unknown, refused for a full queue, the cause of the end, or in hand |
| `Delivery.InProcessAccount` | dcode-rs/app-server-client/src/lib.rs:400-485 | in process, over every run, each server request is handed over, refused, in hand, or without an answer, the last iff its refusal was not accepted or it found the consumer gone |
| `Delivery.InProcessRefusalCanBeLost` | dcode-rs/app-server-client/src/lib.rs:429-445 | a run in which the refusal is not accepted |
| `Delivery.InProcessRequestCanFindConsumerGone` | dcode-rs/app-server-client/src/lib.rs:447-450 | a run in which the consumer is gone |
| `Delivery.EventWorker.NextEvent` | dcode-rs/app-server-client/src/remote.rs:553-558 | the consumer gets what the handshake kept first, then the queue |
| `Delivery.EventWorker.TrySend` | dcode-rs/app-server-client/src/remote.rs:788-803 | sent, full or closed, and the state after each |
| `Delivery.EventWorker.Send` | dcode-rs/app-server-client/src/remote.rs:774-785 | waits until there is room or nobody there, changing nothing else |
| `Delivery.EventWorker.RejectIfServerRequestDropped` | dcode-rs/app-server-client/src/remote.rs:830-850 | a dropped server request is answered with the overload error, or the failed write ends the worker |
| `Delivery.EventWorker.RejectUnknownRequest` | dcode-rs/app-server-client/src/remote.rs:305-337 | an unknown request is answered with the unknown-method error, or the failed write leaves a `Disconnected` to deliver |
| `Delivery.EventWorker.Announce` | dcode-rs/app-server-client/src/remote.rs:772-805 | what was skipped is announced before the event, or the event joins what was skipped, and that only with the queue full |
| `Delivery.EventWorker.HandOver` | dcode-rs/app-server-client/src/remote.rs:807-828 | the event is queued if there is room, counted as skipped only if the queue is full, or the channel is closed |
| `Delivery.EventWorker.DeliverEvent` | dcode-rs/app-server-client/src/remote.rs:766-828 | queued after its marker if there is room, or dropped only if not terminal and the queue was full, with the exact counter; the whole is a run of the step system |
| `Pipeline.TerminalEventsSurvive` | dcode-rs/app-server/src/in_process.rs:636-684 | terminal events taken from the writer are, in order, those consumed, queued and in hand at both stages |
| `Pipeline.RequestsQueuedOrFailedBack` | dcode-rs/app-server/src/in_process.rs:602-635 | each server request reaching the runtime is queued or failed back once |
| `Pipeline.PositionIsPlaceIff` | dcode-rs/app-server/src/in_process.rs:636-684 | over every run the consumer's count of an event is its place among those let into the runtime's queue, and among all taken iff nothing before it was dropped or failed back there |
| `Pipeline.CountIsCompleteIff` | dcode-rs/app-server/src/in_process.rs:602-684 | over every run delivered, announced, pending and queued make up all that was taken iff nothing was dropped or failed back at the runtime's queue |
| `Pipeline.EventFanOut.Fan` | dcode-rs/app-server/src/in_process.rs:602-684 | what happens to one message: queued iff there is room and somebody there, failed back with -32001 for a full and -32603 for a closed queue, dropped silently, waiting, or the end of the loop |
| `Pipeline.AttemptMeans` | dcode-rs/app-server/src/in_process.rs:602-684 | the step of the system is that very case analysis |
| `Requests.SettleKeeps` | dcode-rs/app-server-client/src/remote.rs:264-273 | completing an entry keeps exactly-once and right addressing |
| `Requests.RunsKeep` | dcode-rs/app-server/src/in_process.rs:492-707 | both loops keep exactly-once over every run |
| `Requests.PendingIsTakenMinusCompleted` | dcode-rs/app-server-client/src/remote.rs:160-418 | in every reachable state the table is the requests taken and not completed, none is completed twice, answers go to their id |
| `Requests.EveryRequestCompletedOnce` | dcode-rs/app-server/src/in_process.rs:492-707 | once the loop is over and drained, every request it took was completed exactly once |
| `Requests.DuplicateDisturbsNobody` | dcode-rs/app-server-client/src/remote.rs:172-181 | a duplicate in-flight id is refused at once and the original goes on waiting |
| `Requests.AnswerMeans` | dcode-rs/app-server-client/src/remote.rs:264-273 | a response completes its request as answered, an error response as failed, with the payload it carries; unmatched ones change nothing |
| `Requests.CompletionsHaveCauses` | dcode-rs/app-server/src/in_process.rs:492-707 | over every run a waiter hears only what did happen to its own request, an answer or failure with the code and payload that arrived |
| `Requests.RequestLoop.HandleRequest` | dcode-rs/app-server-client/src/remote.rs:171-205 | what a request's waiter hears at once: duplicate, write failure, full queue, closed processor, or nothing yet |
| `Requests.RequestLoop.HandleAnswer` | dcode-rs/app-server/src/in_process.rs:581-601 | an answer goes to the waiter of its id as it is, whose entry is taken out; unmatched ones are dropped |
| `Requests.RequestLoop.Finish` | dcode-rs/app-server-client/src/remote.rs:412-418 | the end tells everybody still waiting, and then everybody was told once |
| `Subscriptions.RunsSound` | dcode-rs/app-server/src/thread_state.rs:134-363 | over every run each subscribed connection is live and each followed thread known |
| `Subscriptions.RemovedStaysOut` | dcode-rs/app-server/src/thread_state.rs:316-362 | a removed connection follows nothing until it is initialized again |
| `Subscriptions.LastWordCounts` | dcode-rs/app-server/src/thread_state.rs:222-315 | after any run a connection follows a thread iff the last operation about the pair subscribed it, being live at that moment |
| `Subscriptions.LiveUnlessRemoved` | dcode-rs/app-server/src/thread_state.rs:150-156 | and it is live iff it was initialized and not removed since |
| `Subscriptions.KnownUnlessRemoved` | dcode-rs/app-server/src/thread_state.rs:167-197 | a thread is known once asked for, until it is removed |
| `Subscriptions.ThreadState.SetListener` | dcode-rs/app-server/src/thread_state.rs:73-86 | the previous listener is told to stop, the generation counts on and wraps |
| `Subscriptions.ThreadState.ListenerTaskEnds` | dcode-rs/app-server/src/dcode_message_processor.rs:6933-6936 | the slot is cleared iff the generation is still its own |
| `Subscriptions.ThreadState.ClearListener` | dcode-rs/app-server/src/thread_state.rs:88-95 | the slot is emptied, the generation stays |
| `Subscriptions.ThreadStateManager.ConnectionInitialized` | dcode-rs/app-server/src/thread_state.rs:150-156 | the connection becomes live, nothing else changes |
| `Subscriptions.ThreadStateManager.SubscribedConnectionIds` | dcode-rs/app-server/src/thread_state.rs:158-165 | exactly the connections paired with the thread |
| `Subscriptions.ThreadStateManager.HasSubscribers` | dcode-rs/app-server/src/thread_state.rs:255-262 | true iff some connection is paired with the thread |
| `Subscriptions.ThreadStateManager.ThreadStateFor` | dcode-rs/app-server/src/thread_state.rs:167-170 | the thread's own state, fresh if it was unknown |
| `Subscriptions.ThreadStateManager.RemoveThreadState` | dcode-rs/app-server/src/thread_state.rs:172-197 | the thread leaves the relation from both sides and its listener is cancelled |
| `Subscriptions.ThreadStateManager.TryAddConnectionToThread` | dcode-rs/app-server/src/thread_state.rs:293-314 | refines adding the pair, refused exactly for a connection that is not live |
| `Subscriptions.ThreadStateManager.TryEnsureConnectionSubscribed` | dcode-rs/app-server/src/thread_state.rs:264-291 | refines adding the pair, with the state to follow and raw events only ever switched on |
| `Subscriptions.ThreadStateManager.UnsubscribeConnectionFromThread` | dcode-rs/app-server/src/thread_state.rs:222-253 | refines removing the pair, true iff it was there |
| `Subscriptions.ThreadStateManager.RemoveConnection` | dcode-rs/app-server/src/thread_state.rs:316-362 | refines removing the connection from the relation and from the live ones |
| `ListenerSlot.GenerationCountsSets` | dcode-rs/app-server/src/thread_state.rs:73-86 | over every run the generation is the number of sets modulo 2^64 |
| `ListenerSlot.EndingTaskClears` | dcode-rs/app-server/src/dcode_message_processor.rs:6933-6936 | an ending listener empties an occupied slot iff the sets since its own are a multiple of 2^64 |
| `ListenerSlot.EndingTaskSparesOthers` | dcode-rs/app-server/src/dcode_message_processor.rs:6933-6936 | with fewer sets than that in between it never clears another listener |
| `CommandSessions.RunsKeepInv` | dcode-rs/app-server/src/command_exec.rs:142-305 | over every run, unless a closed connection starts again, which the server never lets it do, entries and in-flight starts or processes correspond one to one |
| `CommandSessions.OverRemovesOwnOnly` | dcode-rs/app-server/src/command_exec.rs:265-305 | a start or process that is over removes no entry but its own |
| `CommandSessions.CloseIsComplete` | dcode-rs/app-server/src/command_exec.rs:374-401 | closing leaves none of the connection's entries, touches no other, and terminates each of its processes, even one still spawning |
| `CommandSessions.ControlReachesOwner` | dcode-rs/app-server/src/command_exec.rs:403-438 | a control found under a key goes to the process started under it |
| `CommandSessions.RunsKeepLatest` | dcode-rs/app-server/src/command_exec.rs:142-305 | over every run, even with reuse of connections, each entry was made by the latest start or process of its key still around |
| `CommandSessions.CleanUpTakesForeignIff` | dcode-rs/app-server/src/command_exec.rs:265-305 | over every run of the manager by itself, a clean-up takes another one's entry iff a later start or process of the same key has an entry |
| `CommandSessions.ReuseLosesEntry` | dcode-rs/app-server/src/command_exec.rs:265-305 | such a run of the manager by itself; the server numbers its connections anew (`dcode-rs/app-server/src/transport.rs:121`), so its own runs are those of `RunsKeepInv` |
| `CommandSessions.CommandExecManager.Start` | dcode-rs/app-server/src/command_exec.rs:142-305 | each refusal iff the request calls for it, in the order of the checks, or the entry and the generated id |
| `CommandSessions.RefusalMeans` | dcode-rs/app-server/src/command_exec.rs:158-258 | each refusal and when it is given, in terms of the request |
| `CommandSessions.AcceptedMeans` | dcode-rs/app-server/src/command_exec.rs:171-305 | what an accepted start leaves in the table and running, in terms of the request |
| `CommandSessions.CommandExecManager.CleanUp` | dcode-rs/app-server/src/command_exec.rs:265-305 | the key is taken out |
| `CommandSessions.TakeConnection` | dcode-rs/app-server/src/command_exec.rs:374-401 | the two loops take out exactly the entries of the connection and collect exactly its active controls |
| `CommandSessions.CommandExecManager.ConnectionClosed` | dcode-rs/app-server/src/command_exec.rs:374-401 | the connection's entries are gone and exactly its active controls are returned |
| `CommandSessions.CommandExecManager.SendControl` | dcode-rs/app-server/src/command_exec.rs:403-438 | no entry, a sandboxed entry, or the channel in the entry of that key |
| `OutputCapture.Capture` | dcode-rs/app-server/src/command_exec.rs:576-618 | what a stream delivers is the prefix of length min(cap, read), the cap is flagged iff reached, and on the last delta only |
| `OutputCapture.StreamsAreDelivered` | dcode-rs/app-server/src/command_exec.rs:158-162 | no run has a streaming process without a process id |
| `Connections.ConnectionSession.HandleClientRequest` | dcode-rs/app-server/src/message_processor.rs:500-637 | the whole table of replies; an accepted or refused initialize leaves the flag, opt-outs, name and version of the request; an initialized session never changes; a bad client name leaves it uninitialized |
| `Connections.FirstAcceptableDecides` | dcode-rs/app-server/src/message_processor.rs:515-602 | over every sequence of requests the session is what the first acceptable initialize asked for, and is not initialized before one |
| `Connections.FirstAcceptableHasItsWay` | dcode-rs/app-server/src/message_processor.rs:536-602 | in terms of that request: its flag, its opt-outs or none, its name and version |
| `Connections.ReplayWithout` | dcode-rs/app-server/src/lib.rs:552-607 | taking a connection out of the replica commutes with the queued control events |
| `Connections.ReplicaFollows` | dcode-rs/app-server/src/lib.rs:657-801 | until shutdown the replica with its queue applied is the processor's connections, and the one being opened or closed, less those the router dropped |
| `Connections.ReadyMeansMirrored` | dcode-rs/app-server/src/lib.rs:732-777 | a connection marked ready has its session's experimental flag and opt-outs, and between events every initialized one is marked |
| `Connections.ReadyAsAsked` | dcode-rs/app-server/src/lib.rs:732-777 | these are what some acceptable initialize request on its connection asked for |
| `Connections.SessionNeverChangesAgain` | dcode-rs/app-server/src/message_processor.rs:500-637 | in every run an initialized session stays as it is while its connection lives |
| `Connections.InProcessReadyTooEarlyIff` | dcode-rs/app-server/src/in_process.rs:439-450 | over every sequence of requests, some moment has the ready mark without the session's wishes mirrored iff an accepted initialize brings wishes other than those mirrored |
| `Connections.FirstInitializeTooEarlyIff` | dcode-rs/app-server/src/in_process.rs:439-450 | for a first initialize: iff the client asked for the experimental API or opted out of something |
| `Connections.ProcessorLoop.ConnectionOpened` | dcode-rs/app-server/src/lib.rs:675-713 | refines the opening step of the system |
| `Connections.ProcessorLoop.ConnectionClosed` | dcode-rs/app-server/src/lib.rs:714-729 | refines removal and its control event |
| `Connections.ProcessorLoop.IncomingRequest` | dcode-rs/app-server/src/lib.rs:732-777 | refines handling, both mirrorings and the ready mark |
| `Connections.ApplyControl` | dcode-rs/app-server/src/lib.rs:552-607 | the outbound loop's table after a run of control events |
| `Connections.ShutdownState.OnSignal` | dcode-rs/app-server/src/lib.rs:160-172 | the first signal requests, a further one forces |
| `Connections.ShutdownState.Update` | dcode-rs/app-server/src/lib.rs:174-200 | finishes iff two signals came, or one and no turn is running |
| `TurnOutcome.ThreadTurns.HandleTurnComplete` | dcode-rs/app-server/src/bespoke_event_handling.rs:2105-2119 | sends the outcome and clears the summary |
| `TurnOutcome.ThreadTurns.HandleTurnAborted` | dcode-rs/app-server/src/bespoke_event_handling.rs:1760-1788 | answers every pending interrupt in order, then reports the turn interrupted without error |
| `TurnOutcome.ThreadTurns.HandleError` | dcode-rs/app-server/src/bespoke_event_handling.rs:1360-1401 | a failed rollback refuses its request only; an affecting error becomes the turn's last one and is announced as final |
| `TurnOutcome.StepCompletes` | dcode-rs/app-server/src/bespoke_event_handling.rs:1360-1420 | which events complete a turn, and which error is pending after each |
| `TurnOutcome.AffectsMeans` | dcode-rs/protocol/src/protocol.rs:1649-1664 | just two kinds of error do not count against the turn |
| `TurnOutcome.SentMeans` | dcode-rs/app-server/src/bespoke_event_handling.rs:1360-1420 | what is sent for each event, the retry flag included |
| `TurnOutcome.WaitingMeans` | dcode-rs/app-server/src/bespoke_event_handling.rs:1760-1766 | an abort leaves no interrupt waiting, a failed rollback no rollback |
| `TurnOutcome.StartedMeans` | dcode-rs/app-server/src/bespoke_event_handling.rs:1558-1586 | over every event sequence an item counts as started exactly from its beginning to its end or that of the turn |
| `TurnOutcome.TurnsRefineLookback` | dcode-rs/app-server/src/bespoke_event_handling.rs:2097-2137 | over every event sequence each turn gets the outcome that looking back over it gives |
| `TurnOutcome.ErrorBeforeMeans` | dcode-rs/app-server/src/bespoke_event_handling.rs:298-306 | an error is pending iff an affecting error has no turn end after it |
| `TurnOutcome.IrrelevantNeverCount` | dcode-rs/app-server/src/bespoke_event_handling.rs:1360-1420 | leaving out stream errors, rollback failures and other events changes no outcome |
| `Text.TrimSplits` | dcode-rs/apply-patch/src/seek_sequence.rs:41-65 | trimming takes off blanks on both sides and nothing else |
| `Text.WhitespaceIs` | dcode-rs/apply-patch/src/seek_sequence.rs:41-65 | the characters that are trimmed, written out |
| `SeekSequence.LevelsWiden` | dcode-rs/apply-patch/src/seek_sequence.rs:34-110 | exact, right-trimmed, trimmed and normalised equality each imply the next |
| `SeekSequence.LineMatchesMeans` | dcode-rs/apply-patch/src/seek_sequence.rs:34-110 | what each pass takes for the same line: equal, equal up to blanks after, equal up to blanks around, or alike character by character up to these |
| `SeekSequence.NormaliseCharMeans` | dcode-rs/apply-patch/src/seek_sequence.rs:76-94 | the characters made alike, written out |
| `SeekSequence.Pass` | dcode-rs/apply-patch/src/seek_sequence.rs:34-52 | one pass finds the first match from its start, or none exactly when there is none, and never reads out of range |
| `SeekSequence.Seek` | dcode-rs/apply-patch/src/seek_sequence.rs:12-110 | the result is the least match by strictness, then index, over the window, and none iff nothing matches |
| `SeekSequence.LeastMatchUnique` | dcode-rs/apply-patch/src/seek_sequence.rs:12-110 | there is only one such match |
| `SeekSequence.FoundUnique` | dcode-rs/apply-patch/src/seek_sequence.rs:12-110 | the result is determined |
| `SeekSequence.DocumentedIff` | dcode-rs/apply-patch/src/seek_sequence.rs:1-33 | the result is the documented one iff there is no `eof`, or the end matches and is not before `start`, or it does not match and nothing from `start` on does |
| `SeekSequence.FoundAfterStartIff` | dcode-rs/apply-patch/src/seek_sequence.rs:29-33 | a match is at or after `start` iff there is no `eof` or the end is not before `start` |
| `SeekSequence.EofHasNoFallback` | dcode-rs/apply-patch/src/seek_sequence.rs:29-33 | a line that is there, looked for with `eof` and not found |
| `SeekSequence.EofIgnoresStart` | dcode-rs/apply-patch/src/seek_sequence.rs:29-33 | a line found before `start` |

## Left out

- Sockets, frames, process spawning, terminals, timers, file reads and writes, and logging: they appear as choices of the environment, or not at all.
- Time limits on handshake, shutdown and draining: only what holds at every moment is stated, not how soon anything happens.
- The `initialized` notification that closes the handshake: one write after the modelled loop.
- Requests still in a command channel when a loop ends: their waiters learn of it from the dropped channel, which is outside the loop.
- Serialisation: texts are character sequences, byte offsets are character offsets, and `Canonical` takes the serialiser that breaks ties as any injective function.
- `~0` and `~1` in references (section 4 of RFC 6901): the exporter never unescapes them, so neither does the model.
- `annotate_schema`: the bundle is built over any function from a definition and its name to a schema.
- The order in which hash sets and maps are walked: every order is allowed where the code depends on one.
- Pruning of unused imports after the TypeScript filters, and the tests of a single arm or field: the filters are proved for any test.
- Locating the `=` or the interface marker before the braces of a type: `TypeScriptFields` starts from the text after it.
- BuildSchemaBundle: the exact result is stated for names without slashes and no root schema or definition named like a namespace; the root part is stated in the order given, because later root schemas override earlier ones.
- RunsKeepInv: ownership is stated for runs in which no closed connection starts a command again, as in the server, where connections are numbered by a counter (`dcode-rs/app-server/src/transport.rs:121`); for all other runs of the manager `CleanUpTakesForeignIff` says exactly what is lost.
- Wrap-around of generated process ids after 2^63 starts, and of the 32-bit depths of the scanner on texts of 2^31 characters.
- GenerateBundles: the filtering of experimental parts between the two steps is left out, as when experimental API is asked for; names are plain, no namespace is looked up as a type, and annotating adds no references.
- Removal of experimental fields and type definitions from JSON schemas, titles of variants, and numbered-definition overrides: single walks of the same kind as those modelled.
- What is sent for events that do not touch the turn summary, and the thread history kept beside it.
- `clear_all_listeners` and resuming of threads: repetitions of the listener operations modelled.
- Message filtering per connection and the choice of broadcast targets: the router appears only as a step that may drop a connection.
