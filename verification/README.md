# KrakenD operator: verified model

A Dafny model of the parts of the KrakenD operator whose correctness rests on
an argument across several functions, with proofs of what they promise. Check
everything with `dafny verify dfyconfig.toml`.

- **References of an OpenAPI spec** (`JsonModel`, `RefNames`, `References`,
  `RefResolver`, `ExternalRefs`, `RefMeaning`, `RefPlaces`, `RefCaptures`,
  `RefTargets`, `RefWalk`, `SchemaClosure`, `Parameters`): external `$ref`s are
  inlined into one document, schemas are closed over their references, parameter
  references are replaced within a byte budget. The documents may be mutually
  recursive. What becomes of each reference is stated by its text and its own
  document alone. What a spec means is the tree its references unfold into,
  each local one followed as a pointer into its document; it is proved exactly
  when inlining keeps that tree at every depth.
- **Blame** (`Verdicts`, `VerdictMemo`, `Checker`, `Decide`, `Blame`): what a
  gateway applies, which endpoints it excludes and whom a failure blames, first
  as functions that know no memo, then as methods that answer from a memo which
  outlives failed passes. The memo is proved invisible, unchanged passes free,
  and every decision is stated case by case on the configs that are rendered
  and judged.
- **AutoConfig** (`Generator`, `Clash`, `Cluster`, `RouteCollisions`,
  `Precheck`, `AutoConfig`, `Reconcile`, `AutoConfigPass`): a pass adopts,
  plans, holds, writes and deletes through an API in which any call may fail,
  with or without effect. `Cluster.Api.trace` records every state of the
  cluster; the theorems speak of all of them.
- **Config storage** (`ConfigStore`, `Gc`): content-addressed ConfigMaps that
  others may edit, replace and delete before any call, the memo of verified
  versions, and the collection of old ones.
- **License and slots** (`License`, `Slots`): the time-driven conditions of an
  Enterprise license, and the two nested pools of validation slots as a state
  machine over any number of processes.

What the operator calls but does not decide is a function the model is given:
the renderer, the validator and the checksum (`Verdicts.Env`), fetching and URL
resolution (`References.World`), the checks of the AutoConfig's gateway
(`Precheck.Checks`), the hash of a payload (`ConfigStore.Store.hash`), the
encoded size of a parameter, and lower-casing (`Generator.Naming`). Assumptions
about them are stated where they are used: `Verdicts.Trusted` (different configs
have different checksums), `Verdicts.RendersReferencedOnly`, `Decide.NeverBlank`.
Failing calls and the doings of others come from functions of the number of the
call, about which nothing is assumed.

Where the code and what is said of it differ, the model follows the code:

- The comment on example names (`operator/internal/autoconfig/refresolver.go:192-195`)
  expects that no reference of the spec can come to mean an inlined component.
  A dangling one can, and so can one to a schema: `RefCaptures`. The exact
  condition is `RefPlaces.OnlyCapturesChangeMeaning`, for specs whose local
  references dangle or lead to what the walk reaches in their role
  (`RefPlaces.LeadsToItsOwn`): not to the whole spec, to `components` or to one
  of its maps, which inlining adds to, and not into example data, which it
  leaves alone (`RefCaptures.DataIsNotInlined`).
- A local reference of another document that cannot be resolved there is left
  as it is, with a warning, and is then read in the inlined spec. So the sources
  are unfolded: it is followed in the spec.
- `pointerLookup` accepts pointers without a leading `/`, and array indexes with
  a sign or leading zeros, which section 4 of RFC 6901 does not; so does
  `JsonModel.PointerLookup`.
- A ConfigMap's name carries ten characters of a checksum, so an address stands
  for one content only while no two contents share them:
  `ConfigStore.AddressStandsForContent`, with the failing case in
  `ConfigStore.Store.AcceptCollision`.

## Model

| member | source | states |
|---|---|---|
| `JsonModel.PointerRoundTrip` | operator/internal/autoconfig/refresolver.go:510-541 | the pointer written with the escapes of RFC 6901 for any path of object keys and array indexes leads, in any document, exactly where following the path leads, or nowhere when the path does |
| `JsonModel.PointedHasPath` | operator/internal/autoconfig/refresolver.go:510-541 | and every value a pointer reaches, however it is written, is at the end of such a path |
| `JsonModel.UnescapeInvertsEscape` | operator/internal/autoconfig/refresolver.go:517-519 | decoding `~1` and then `~0` undoes the escaping of every key |
| `JsonModel.LookupStrings` | operator/internal/autoconfig/refresolver.go:510-541 | a pointer reaches only text the document holds |
| `RefNames.SanitizeRefName` | operator/internal/autoconfig/refresolver.go:543-580 | the local name is non-empty and made of `[A-Za-z0-9_]` only, whatever the URL and the fragment |
| `RefNames.NameHasTheLetters` | operator/internal/autoconfig/refresolver.go:543-580 | a local name has every letter and digit of the document's base name and of the fragment, in order, and no other while there is one |
| `RefNames.PlainNameIsPath` | operator/internal/autoconfig/refresolver.go:543-549 | where nothing needs replacing it is the base name and the parts of the pointer joined with underscores |
| `RefNames.NumberedIsInjective` | operator/internal/autoconfig/refresolver.go:196-203 | the candidates a taken name is replaced by are pairwise different |
| `References.UniverseIsClosed` | operator/internal/autoconfig/refresolver.go:366-466 | the references found in a finite set of documents are finite and closed under resolving: what makes the mutual recursion of the walk end |
| `References.ReachIsClosed` | operator/internal/autoconfig/refresolver.go:228-309 | the keys reachable from the spec are the least set that holds the keys of its references and of the references of every target |
| `RefResolver.Resolver.FreeExampleName` | operator/internal/autoconfig/refresolver.go:196-203 | the loop ends and returns the first candidate that neither the spec nor an earlier key holds |
| `RefResolver.Resolver.FindTarget` | operator/internal/autoconfig/refresolver.go:404-443 | the fragment of the key in its document, or the error branch: not fetchable, not online, no such fragment |
| `RefResolver.Resolver.ResolveExternal` | operator/internal/autoconfig/refresolver.go:366-466 | every branch: a resolved or busy key answers with its one name, an unresolvable one with a warning and no name, a new one is inlined once, and the invariant over names, bodies, collisions and warnings holds after |
| `RefResolver.Resolver.InlineNew` | operator/internal/autoconfig/refresolver.go:414-466 | the body stored for a new key is its fragment, inlined through the final key-to-name map, however the walk of that fragment came back to the key |
| `RefResolver.Resolver.ResolveExample` | operator/internal/autoconfig/refresolver.go:289-309 | an Example Object's reference is rewritten to its key's own name; an unresolvable one is left and reported |
| `RefResolver.Resolver.Walk` | operator/internal/autoconfig/refresolver.go:228-285 | the walk ends on every document graph, cyclic or not; its result is the node inlined through the names; every site below it is settled; names only grow |
| `ExternalRefs.AddSchemas` | operator/internal/autoconfig/refresolver.go:97-115 | the spec's own schemas win, each one in the way is warned about, everything else inlined is added |
| `ExternalRefs.AllReached` | operator/internal/autoconfig/refresolver.go:71-122 | exactly the reachable keys that have a target are given a name |
| `ExternalRefs.ResolveExternalRefs` | operator/internal/autoconfig/refresolver.go:71-122 | success: exactly the reachable targets are inlined, one name per key, nothing else in the spec changes, every clash of names is reported and nothing else is; failure: only for a reachable document that cannot be fetched |
| `RefTargets.KeyIsDenoted` | operator/internal/autoconfig/refresolver.go:366-374 | the key of a reference is the place its text names: in its own document when it starts with `#`, otherwise in the document its URL part leads to from the URL of the document it is written in |
| `RefTargets.SpecRefBecomes` | operator/internal/autoconfig/refresolver.go:228-309 | of every result, clash or not: a reference anywhere the walk reaches in the spec becomes the local pointer to what was inlined for the place its text names, and stays when that is nowhere |
| `RefTargets.TargetRefBecomes` | operator/internal/autoconfig/refresolver.go:420-435 | the same in what is inlined, by the URL of the document it came from, where `#/` references are followed as well |
| `RefTargets.ChainIsInlined` | operator/internal/autoconfig/refresolver.go:366-466 | a chain: a schema that is a reference to another document is resolved against its own document, wherever the spec is, and its body points to what that leads to |
| `RefWalk.WalkGoesOn` | operator/internal/autoconfig/refresolver.go:228-285 | where the walk goes, by the keys themselves: past a map of names to every member, one called `example` too, to each Example Object, and otherwise to every member that is not example data |
| `RefWalk.SpecIsKept` | operator/internal/autoconfig/refresolver.go:228-309 | wherever it goes in the spec, a result keeps arrays as long, objects with the same members and plain values as they were, and example data, the siblings of a reference to another document and Example Objects that hold none untouched |
| `RefWalk.TargetIsKept` | operator/internal/autoconfig/refresolver.go:414-435 | the same of what is inlined and the target it came from |
| `RefMeaning.RewrittenRefResolves` | operator/internal/autoconfig/refresolver.go:366-466 | no rewritten reference dangles; without a clash of names it leads to its target, inlined |
| `RefMeaning.InliningKeepsMeaning` | operator/internal/autoconfig/refresolver.go:71-122 | the meaning of a spec is the tree its references unfold into, local ones followed as JSON pointers into the document they are in; where those that lead somewhere still lead to the inlined form of that, the inlined spec unfolds to every depth into the tree of the sources, if and only if none that dangles comes to lead somewhere and none is lost |
| `RefPlaces.OnlyCapturesChangeMeaning` | operator/internal/autoconfig/refresolver.go:71-122 | the exact condition: for every spec whose local references lead to places of their role the walk keeps, or dangle, and every resolution without a clash of names, the meaning is kept if and only if no dangling one points at an inlined component, at what holds one, or to a place inside one that its own document has |
| `RefPlaces.MovedIfCaptured` | operator/internal/autoconfig/refresolver.go:97-122 | reference by reference: what dangled leads somewhere afterwards exactly when it is captured so |
| `RefPlaces.WalkedStays` | operator/internal/autoconfig/refresolver.go:228-285 | a local reference to any such place, at any depth, leads afterwards to the inlined form of what it led to |
| `RefPlaces.InliningIsFaithful` | operator/internal/autoconfig/refresolver.go:192-203 | a check on the spec and its documents alone, against every name that may be given, after which the meaning is kept |
| `RefCaptures.DanglingExampleIsCaptured` | operator/internal/autoconfig/refresolver.go:192-195 | the counterexample to the comment: an external Example Object beside a dangling reference to the name it will get; every successful result has no clash of names and another meaning |
| `RefCaptures.DanglingSchemaIsCaptured` | operator/internal/autoconfig/refresolver.go:366-466 | the same for a schema, by its sanitized name |
| `RefCaptures.CapturedExample` | operator/internal/autoconfig/refresolver.go:71-122 | a run of the resolver on such a document: it succeeds, reports no clash, and changes the meaning |
| `RefCaptures.CapturedSchema` | operator/internal/autoconfig/refresolver.go:71-122 | the same run for a schema |
| `RefCaptures.DataIsNotInlined` | operator/internal/autoconfig/refresolver.go:244-262 | why references into example data are excepted: nothing dangles and nothing is captured, yet what such a reference means is not inlined |
| `SchemaClosure.GatherIsExact` | operator/internal/autoconfig/jsonwalk.go:41-61 | the walk finds exactly the references that a path past no example data leads to, a member of a map of names being searched whatever it is called |
| `SchemaClosure.SchemaFieldHolds` | operator/internal/autoconfig/schemas.go:149-184 | what counts in a schema: the text of a local `$ref`, and each text of a discriminator's mapping |
| `SchemaClosure.DocumentationFieldHolds` | operator/internal/autoconfig/schemas.go:115-147 | what counts in the documentation: the text of a `ref`, and what an `example_schema` refers to, an object or the text of one |
| `SchemaClosure.PointerDenotes` | operator/internal/autoconfig/schemas.go:98-113 | a pointer to a component schema, or to anything in it, denotes that schema, whatever characters its name holds |
| `SchemaClosure.DocumentedIffChain` | operator/internal/autoconfig/schemas.go:63-150 | being in every closed set of references is being at the end of a chain that starts in the documentation and goes on through the schemas |
| `SchemaClosure.SchemaClosure` | operator/internal/autoconfig/schemas.go:63-96 | the closure of an entry is exactly the component schemas such chains end at, the unresolved exactly the ends they cannot meet; an entry without documentation needs none |
| `SchemaClosure.Compute` | operator/internal/autoconfig/schemas.go:63-96 | the worklist ends on cyclic schemas, and its result depends on what is reached only, not on the order |
| `Parameters.ResolveParameter` | operator/internal/autoconfig/parameters.go:148-173 | the loop returns what at most eight chained references lead to, only under `#/components/`, and only a parameter object |
| `Parameters.ResolvesByChain` | operator/internal/autoconfig/parameters.go:143-173 | a reference resolves to p exactly when a chain of at most that many pointers under `#/components/`, each to an object that refers to the next, ends at p, an object with a text for `name` and `in` and no `$ref` |
| `Parameters.TargetIsInComponents` | operator/internal/autoconfig/parameters.go:143-155 | a followed pointer starts at the member `components`, after decoding |
| `Parameters.ResolveReadsComponents` | operator/internal/autoconfig/parameters.go:143-173 | what a reference resolves to depends on the components alone, so rewriting paths never changes it |
| `Parameters.EntryBecomes` | operator/internal/autoconfig/parameters.go:95-132 | an entry of a list becomes what at most eight references lead to, and stays when that is nothing |
| `Parameters.UsesAreTheEntries` | operator/internal/autoconfig/parameters.go:60-75 | what is looked at is exactly every entry of every list of the path items and of their operations in all eight methods |
| `Parameters.UseCosts` | operator/internal/autoconfig/parameters.go:95-132 | each entry costs the size of what replaces it, and is warned about when it is a local reference that nothing replaces |
| `Parameters.Dereferencer.List` | operator/internal/autoconfig/parameters.go:95-132 | one parameters list, in place: each entry by its resolution in the original document; the budget, the warnings and the changed flag account for exactly its entries |
| `Parameters.Dereferencer.Paths` | operator/internal/autoconfig/parameters.go:60-75 | all path items and operations, the document updated item by item, equal one simultaneous substitution from the original document |
| `Parameters.DereferenceParameters` | operator/internal/autoconfig/parameters.go:32-84 | the result is that substitution; it is refused if and only if something is inlined and the input and all inlined sizes exceed the limit; unchanged if and only if nothing is inlined; the warnings are the unresolvable references in order |
| `Parameters.SecondRunChangesNothing` | operator/internal/autoconfig/parameters.go:32-84 | the components are as they were, and nothing in the result is left to dereference |
| `Verdicts.TruncateLoop` | operator/internal/configcheck/verdict.go:115-126 | the byte loop cuts at the last rune boundary within the limit, or at the start |
| `Verdicts.TruncateEllipsis` | operator/internal/configcheck/verdict.go:128-139 | never longer than the limit, and empty only for an empty text |
| `Verdicts.UntrustedIffBlank` | operator/internal/configcheck/unit.go:361-377 | a remembered verdict is answered again, unless it is the blank rejection |
| `Verdicts.FailingAlone` | operator/internal/configcheck/unit.go:298-316 | the policies blamed for failing alone are exactly those that do |
| `Verdicts.BlameIsExact` | operator/internal/configcheck/unit.go:183-245 | an endpoint is blamed only if it fails with every policy of another namespace emptied, and is shown that check's output; policies are blamed only for failing alone, or when emptying the foreign ones makes the endpoint pass |
| `Verdicts.ForeignContentIsNeverShown` | operator/internal/configcheck/unit.go:183-245 | two checks that differ only in policies of other namespaces, both blaming the endpoint, return the same verdict |
| `VerdictMemo.RememberedIsFresh` | operator/internal/controller/verdict_memo.go:43-96 | after any sequence of begin, lookup, store of a fresh verdict, end (failed or not) and forget, each remembered verdict is what a fresh check of that content returns |
| `Decide.RunPasses` | operator/internal/controller/gateway_validation.go:88-158 | and so it is after any sequence of real passes, of any gateways, whichever runs of the validator fail: what they store is what they judged |
| `VerdictMemo.PassMemo.Lookup` | operator/internal/controller/verdict_memo.go:49-58 | answers from this pass, then from the last one, and marks what it answers as used |
| `VerdictMemo.Memo.End` | operator/internal/controller/verdict_memo.go:74-89 | a passed pass keeps what it used, a failed one everything it had |
| `Checker.Checker.Remembered` | operator/internal/configcheck/unit.go:263-296 | with any sound memo the answer is the fresh one, and it is given whenever every run it makes can be made; a known content runs nothing; nothing is stored when the validator is unavailable |
| `Checker.Checker.CheckUnit` | operator/internal/configcheck/unit.go:198-245 | the same for the checks of one endpoint: whole, then with the foreign policies emptied |
| `Checker.Checker.CheckEndpoint` | operator/internal/configcheck/unit.go:198-245 | the same with the policies checked first, a missing policy ending the check without blame |
| `Blame.EndpointByCase` | operator/internal/configcheck/unit.go:183-245 | the verdict on an endpoint, case by case, from what the renderer and the validator say of explicit configs: a missing policy passes it; else exactly the policies rejected alone are named; else the endpoint with the root decides; else, with foreign policies, the same with their content emptied |
| `Checker.PoliciesEnd` | operator/internal/configcheck/unit.go:298-316 | stopping at the first missing policy judges a part of what the whole list judges, and says the same |
| `Decide.Reconciler.JudgeEndpoints` | operator/internal/controller/gateway_validation.go:160-190 | the excluded endpoints and their verdicts are the memo-free ones, and they are given whenever the runs can be made |
| `Decide.Reconciler.DecidePass` | operator/internal/controller/gateway_validation.go:94-158 | with any sound memo a pass makes the decision a pass without one makes, whenever the runs it makes can be made, and no other decision ever; it runs nothing when all it judges is known; a failed pass forgets nothing |
| `Decide.JudgedAlone` | operator/internal/controller/gateway_validation.go:160-190 | each judged endpoint not excluded does not fail alone (a missing policy ends its check without blame), each excluded one fails alone with that verdict |
| `Decide.DecisionIsSound` | operator/internal/controller/gateway_validation.go:94-158 | what is applied is the applied config or passes the full check, is the render without the excluded endpoints, each excluded one fails alone, every other one was vouched for or does not fail alone; a refusal blames only what fails alone |
| `Blame.DecisionByCase` | operator/internal/controller/gateway_validation.go:94-158 | the decision, case by case, from what the renderer and the validator say: the applied config stays while nothing it masks fails; else a root rejected alone is refused with its output, blaming nobody, whatever else fails; past a root that is accepted exactly the endpoints not vouched for that fail alone are left out, and the rest is applied, or refused as a whole |
| `Blame.AppliedByCase` | operator/internal/controller/gateway_config.go:577-611 | a render is the applied config exactly when it has the recorded checksum and runs as the recorded edition; where none is recorded only the running image of the other edition speaks against it |
| `Blame.EveryGatewayIsDecided` | operator/internal/controller/gateway_validation.go:94-158 | only a render that fails keeps a gateway from being decided |
| `Decide.AppliedAlwaysPasses` | operator/internal/controller/krakendgateway_controller.go:216-238 | over any run of passes, whatever fails or is not published, the applied config passes the full check of its recorded edition; a status that records none is covered by the edition the first pass that renders adopts for it |
| `Decide.AnewSettles` | operator/internal/controller/gateway_validation.go:105-158 | once its output is applied, an exclusion is decided again with no new check |
| `Decide.DecisionSettles` | operator/internal/controller/gateway_validation.go:94-158 | once recorded, the decision is repeated on the same inputs and judges no content it had not judged |
| `Decide.RepeatPasses` | operator/internal/controller/gateway_validation.go:88-158 | every later pass on unchanged inputs returns the same decision with zero runs of the validator |
| `Clash.KnownKeys` | operator/internal/configcheck/clash.go:94-99 | the clashes known before, by entry, loser and winner, whatever the router says of them |
| `Clash.NewClashes` | operator/internal/configcheck/clash.go:85-118 | exactly the router clashes that are new and involve one of the given endpoints |
| `RouteCollisions.EveryRouteIsServed` | operator/internal/controller/autoconfig_endpoints.go:655-690 | every desired route has an endpoint that keeps it: no group loses everyone |
| `RouteCollisions.OneOwnerPerRoute` | operator/internal/controller/autoconfig_endpoints.go:655-690 | of two desired endpoints on one route, one is held |
| `RouteCollisions.NewcomersDisplaceNobody` | operator/internal/controller/autoconfig_endpoints.go:586-611 | adding endpoints that do not exist yet holds nobody that exists, and frees nobody |
| `RouteCollisions.HoldsAreStable` | operator/internal/controller/autoconfig_endpoints.go:590-690 | after a pass creates any of its survivors, the next pass holds the same endpoints |
| `RouteCollisions.Survivor` | operator/internal/controller/autoconfig_endpoints.go:676-680 | the survivor of a group is its first by creation time and then name |
| `RouteCollisions.RouteCollisions` | operator/internal/controller/autoconfig_endpoints.go:663-690 | exactly the desired endpoints that an older one on the same route precedes are held, each with the one that serves its route, which is no younger, exists if the held one does, and is not held itself |
| `RouteCollisions.BeforeIsAStrictOrder` | operator/internal/controller/autoconfig_endpoints.go:601-604 | different names are always ordered, in one direction |
| `Precheck.RouterClashes` | operator/internal/controller/autoconfig_endpoints.go:469-515 | exactly the writes are held that, rendered as they will be written with the age the cluster gives them, lose an entry they did not lose before, or win one of an endpoint that is not written; all of them when the render cannot tell; the stale endpoints are emptied in that render exactly when they are to go; it completes when every check answers |
| `Precheck.JudgeCandidates` | operator/internal/controller/autoconfig_endpoints.go:396-455 | holds exactly the candidates the group does not vouch for and that fail alone; nobody when the root fails alone; it completes when every check answers |
| `Precheck.HoldClashing` | operator/internal/controller/autoconfig_endpoints.go:376-388 | the loop of re-checks ends, because every round holds someone still to be written, and leaves writes that lose and take nothing in a render that replaces them only, the stale endpoints in place; it completes when every check answers |
| `Precheck.Precheck` | operator/internal/controller/autoconfig_endpoints.go:304-390 | it completes whenever the gateway can be read and every check answers; then what is let through loses and takes nothing in a render of the writes, with the stale endpoints emptied exactly when nothing at all is held; does not fail alone or is vouched for by a group of planned writes; uses nothing Enterprise-only on a CE gateway; whoever is held is held for one of these causes, and when there is none nobody is |
| `Precheck.WithoutHeldTwice` | operator/internal/controller/autoconfig_endpoints.go:517-523 | leaving out twice is leaving out the union, order kept |
| `AutoConfig.EndpointOutcome.Record` | operator/internal/controller/autoconfig_endpoints.go:243-264 | a failed call is raced, rejected or transient, and only that list grows |
| `AutoConfig.ClaimEndpoints` | operator/internal/controller/autoconfig_endpoints.go:64-121 | only label-matched orphans that are not desired are adopted, in every state on the way; everything controlled is listed as stored; without a failure no orphan is missed |
| `AutoConfig.WhatAPassChanges` | operator/internal/controller/autoconfig_endpoints.go:64-211 | make-before-break by the fields of the objects: what others control stays as it is; a desired endpoint is at most merged with what is desired, its other labels kept; any other is at most adopted, and only if it carries every label and is not being deleted; what goes was the owner's or such an orphan, and goes when everything desired is there |
| `AutoConfig.ConvergedMeans` | operator/internal/controller/autoconfig_endpoints.go:692-704 | convergence by the fields of the objects: everything desired is there with its spec and labels, nothing else is controlled, and no orphan is left |
| `Reconcile.PlanEndpoints` | operator/internal/controller/autoconfig_endpoints.go:123-148 | the writes are exactly the desired endpoints not controlled as desired, the stale ones exactly the controlled that are not desired |
| `Reconcile.WithUncontrolled` | operator/internal/controller/autoconfig_endpoints.go:613-647 | what is controlled and desired copies nobody controls, as stored; all of them when no read fails |
| `Reconcile.WriteEndpoint` | operator/internal/controller/autoconfig_endpoints.go:183-211 | a success leaves the endpoint controlled, with the desired spec and labels; another's endpoint is refused and untouched; any failure changes that endpoint or nothing |
| `Reconcile.BreakOneMore` | operator/internal/controller/autoconfig_endpoints.go:751-763 | deleting a stale endpoint leaves every desired one made |
| `Reconcile.DeleteAll` | operator/internal/controller/autoconfig_endpoints.go:161-181 | the deletes go through only states in which everything desired is made, whichever of them fail |
| `AutoConfigPass.ConvergedPlanIsEmpty` | operator/internal/controller/autoconfig_endpoints.go:126-148 | a converged cluster has nothing to write and nothing stale |
| `AutoConfigPass.ReconcileEndpoints` | operator/internal/controller/autoconfig_endpoints.go:692-766 | make-before-break in every state of a pass, for any pattern of failing calls; a pass that stops early only adopts; a pass completes when the gateway can be read and every call and every check answers; one with nothing held and no failure leaves the controlled endpoints exactly the desired ones; only what the precheck passed is written; rejected endpoints stay; on a converged cluster a pass changes nothing; whatever fails, every desired endpoint is made in the end or something is recorded of it, and every hold has a cause, routes going by the creation times of what exists; the stale endpoints are checked as gone only when nothing is held and no write was refused before, and then always while no call fails; when all calls and checks answer, nobody else controls a desired name and nothing is wrong with what is to be written, the pass converges |
| `Generator.EndpointNameIsValid` | operator/internal/autoconfig/generator.go:151-174 | a generated name is a valid Kubernetes object name, label by label, of at most 253 characters, that starts with the AutoConfig's, whatever the operation is called |
| `Generator.GeneratedNamesAreDistinct` | operator/internal/autoconfig/generator.go:85-106 | generated endpoints have pairwise distinct names |
| `Generator.GeneratesAllItCan` | operator/internal/autoconfig/generator.go:85-106 | no two generated operations share path and method, an id or an endpoint name, and no other one could be added; operations that share nothing are all generated |
| `Generator.PlainIdsDiffer` | operator/internal/autoconfig/generator.go:151-190 | an id of name characters is kept whole, in lower case, so different ids give different names while they fit |
| `Generator.GeneratesOneWay` | operator/internal/autoconfig/generator.go:85-106 | which operations are generated is settled by the list of operations alone |
| `Generator.Generate` | operator/internal/autoconfig/generator.go:71-133 | the endpoints are those of the operations that duplicate no generated one before them, in order; each other one is skipped with the generated operation that has the first of its claims |
| `ConfigStore.NameCarriesShortChecksum` | operator/internal/resources/configmap.go:32-60 | two checksums have one name exactly when their first ten characters agree |
| `ConfigStore.AddressStandsForContent` | operator/internal/controller/gateway_config.go:179-262 | whatever the check of a copy accepts for a checksum, remembered at its address or not, holds its payload, if and only if no other payload's checksum shares its address |
| `ConfigStore.Store.AcceptCollision` | operator/internal/controller/gateway_config.go:199-221 | the counterexample when one does, as a run of the store with no fault and nobody else at work: looked for under the other checksum it is remembered, and then found without error for this one, whose payload it does not hold |
| `ConfigStore.VerifiedConfigMaps.Remember` | operator/internal/controller/verified_configmaps.go:56-69 | at most eight versions per gateway; only this name, or all of this gateway's when it has eight, are replaced |
| `ConfigStore.Store.VerifyPayload` | operator/internal/controller/gateway_config.go:223-249 | only a ConfigMap with another payload is deleted; found means the payload hashes to the checksum and the version is remembered; with nobody else at work it fails only when a call does |
| `ConfigStore.Store.VerifyExisting` | operator/internal/controller/gateway_config.go:179-221 | ours, not ours or tampered exactly by owner, annotation, payload and memo; not ours still serves the right address; with nobody else at work, no other error unless a call fails |
| `ConfigStore.Store.PublishConfig` | operator/internal/controller/gateway_config.go:142-177 | with nobody else at work and no failing call it succeeds exactly when no other owner's copy with the right payload, or with one remembered as right, is at the address, and reports such a copy otherwise; a success leaves the gateway's annotated copy there, with the right payload unless the address is shared; a ConfigMap with the right payload is never touched, nor any other name |
| `ConfigStore.Store.AppliedConfigMapName` | operator/internal/controller/gateway_config.go:86-123 | a name means the applied config is published under it, restored from the legacy ConfigMap if need be; no name means neither exists; with nobody else at work and no failing call there is an error exactly when another's copy is in the way |
| `ConfigStore.Store.Run` | operator/internal/controller/verified_configmaps.go:33-83 | over any passes of any gateways, with any edits before any call, the memo stays within its bound and each remembered version is at its address |
| `Gc.HistoryIsNewest` | operator/internal/controller/gateway_config.go:337-357 | every revision the history keeps is newer than every one collected |
| `Gc.HistoryIsBounded` | operator/internal/controller/gateway_config.go:342-357 | the history keeps at most two revisions besides the applied one |
| `Gc.CandidatesAreOld` | operator/internal/controller/gateway_config.go:318-358 | what may be collected is controlled, not applied and not mounted, and is the legacy ConfigMap or a revision that two others are no older than; and each spare revision that two others are newer than may be |
| `Gc.KeptAreNoOlder` | operator/internal/controller/gateway_config.go:337-357 | every revision kept was created no earlier than every one that may be collected |
| `Gc.SecondCollectionDeletesNothing` | operator/internal/controller/gateway_config.go:264-316 | on what a complete collection leaves, every candidate is mounted by a live ReplicaSet |
| `Gc.RankIsPosition` | operator/internal/controller/gateway_config.go:337-357 | the place of a revision in the sorted list is the number of newer ones |
| `Gc.Candidates` | operator/internal/controller/gateway_config.go:318-358 | sorting and counting give exactly the controlled ConfigMaps that are neither applied, nor mounted, nor in the history |
| `Gc.LiveConfigMaps` | operator/internal/controller/gateway_config.go:360-388 | exactly what ReplicaSets of the gateway's Deployment with or wanting pods mount |
| `Gc.Collect` | operator/internal/controller/gateway_config.go:264-316 | only candidates no live ReplicaSet mounts are deleted, whichever delete fails; a success leaves none of them |
| `License.StageLastsUntilNextChange` | operator/internal/util/license/window.go:42-66 | the stage is constant until exactly the next boundary, and zero means expired |
| `License.NoBoundaryIsMissed` | operator/internal/controller/gateway_license.go:314-322 | the stage does not change before the next check, which is at most five minutes away |
| `License.PassIsCoherent` | operator/internal/controller/gateway_license.go:86-162 | from a coherent status a pass leaves one: degraded means expired, expired means not valid and a known expiry inside the buffer; its verdict is the fallback that status records |
| `License.RunIsCoherent` | operator/internal/controller/gateway_license.go:86-279 | so in every pass of every run, for any reads, editions, toggles and lost status writes, with a clock that does not go back |
| `License.ReadableSettles` | operator/internal/controller/gateway_license.go:194-225 | a readable license sets the conditions by its stage and the toggle alone, whatever was recorded |
| `License.ReadableByTheClock` | operator/internal/controller/gateway_license.go:86-120 | of a readable license, by its expiry and the clock alone: every condition with its reason, the fallback, the checksum, and that the next pass is due before the hour it lapses in |
| `License.UnreadableByTheClock` | operator/internal/controller/gateway_license.go:122-162 | of one that cannot be read, by the recorded expiry and the clock alone: from an hour before it the license is expired, not valid, and the gateway falls back if it may; until then only LicenseValid changes, to Unknown |
| `License.TurnsAreTold` | operator/internal/controller/gateway_license.go:194-279 | every turn into the fallback, out of it or of an expiry, and every loss of the Secret is told by an event, and no fallback or recovery is told that is not recorded |
| `License.SettledPassIsSilent` | operator/internal/controller/gateway_license.go:194-279 | a later pass that reads the same in the same stage records no event and changes no condition |
| `License.ChecksumIsTheLicense` | operator/internal/controller/gateway_license.go:76-84 | an unreadable license keeps the deployed checksum; a readable one gives its own, fallback or not |
| `License.LastReadIsDeployed` | operator/internal/controller/gateway_license.go:76-120 | over any run the Deployment carries the checksum of the license read last, however many passes could not read one since |
| `License.GatewayLicense.ApplyLicenseStage` | operator/internal/controller/gateway_license.go:194-279 | the conditions and the events after each stage, from any conditions before |
| `License.GatewayLicense.ReconcileUnreadable` | operator/internal/controller/gateway_license.go:122-162 | the last known expiry applies once it is over, otherwise the recorded fallback is kept |
| `License.GatewayLicense.ReconcileLicense` | operator/internal/controller/gateway_license.go:86-120 | the status, the events and the verdict of a pass, for every edition and read |
| `Slots.StepKeepsInv` | operator/internal/configcheck/checker.go:147-179 | every step keeps the channels' counts equal to the slots processes hold, within bounds; a check or a pass that ends, in success, error or panic, goes on to the deferred release of what it took, which is a step of its own |
| `Slots.AdmissionIsLeftASlot` | operator/internal/controller/helpers.go:182-204 | in every reachable state gateway workers and controllers together hold all but one slot at most, so a lone admission request never waits |
| `Slots.SomeoneCanGoOn` | operator/internal/configcheck/checker.go:147-179 | no deadlock from nesting the two pools: while a process is at work, one can take a step that brings it nearer its end |
| `Slots.RunDrains` | operator/internal/controller/helpers.go:182-204 | from every reachable state such steps alone can end everything under way, and both pools are full again |
| `Slots.AllSlotsComeBack` | operator/internal/controller/helpers.go:187-204 | however checks and passes ended, once all processes are idle both pools are full again |

## Left out

- Update in place of JSON: documents are values, an object is the list of its fields, so that no node is shared is built in rather than proved of the deep copies; the resolver, the dereferencer, the memos, the clusters and the license are classes with the fields of the source.
- Texts of messages, events and denials: warnings, holds and events are datatypes with the facts their texts are made of.
- Sorted order of reported lists (unresolved references, new clashes, adoption failures) and the order of writes and deletes: sets of facts are proved, not their order; choosing an element of a set in a loop stands for Go's map iteration.
- Decoding and encoding of JSON and YAML, SHA-256, base64, URL parsing and Unicode case folding: functions given to the model.
- The renderer, the krakend validator and the fetcher: functions given to the model, about which only the stated assumptions are made.
- Meaning of what stands beside a `$ref` in a reference object: ignored by the unfolding, as OpenAPI 3.0 has it.
- Stale caches and other writers during an AutoConfig pass: reads see the cluster as it is, though any call may report a conflict; a finalizer that delays a delete is not modelled.
- A controller reference to an object of the same name and another UID: another UID is another owner.
- AutoConfigPass.ReconcileEndpoints: the counts of changes and the readiness summary of its outcome are not modelled.
- RouteCollisions.Survivor: stands for sorting the group and taking its first; the order of the held ones is not modelled.
- Generator.Generate: the warnings about schema references are not modelled; the closure they come from is `SchemaClosure.SchemaClosure`.
- Precheck.Precheck: the verdict memo of the AutoConfig is left out here, having been proved invisible in `Checker` and `Decide`; the wait for a check slot is in `Slots`.
- Slots.SomeoneCanGoOn: says that a step is possible, not which process gets a free slot; how long one waits is not bounded.
- License.GatewayLicense.ReconcileLicense: metrics, the reading of the Secret and the parsing of the certificate are one read that succeeds or fails.
- Admission webhooks, rollout of the Deployment, status conditions of endpoints and policies, CUE evaluation, filters and preprocessing of specs: single passes of case analysis or calls into libraries.
