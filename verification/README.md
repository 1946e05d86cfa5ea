# ctxmesh in Dafny

A model of the parts of ctxmesh whose correctness is an argument over whole runs or whole
transformations, with proofs of what they promise.

| modules | models |
|---|---|
| `Amp`, `CloudEvents`, `Mesh`, `MeshBounds` | the agent-to-agent protocol: stamping, guards, access control, the asynchronous carrier, and a mesh of any number of launchers as a transition system |
| `AsyncConsumer`, `AsyncHandler` | the consumer behind an at-least-once broker with a shared seen-set that can fail before or after it takes effect |
| `Discovery`, `DiscoveryServer` | the discovery sidecar: a manifest replaced under a lock and a lossy broadcast outside it |
| `HelmText`, `HelmChart`, `HelmDials`, `HelmFiles` | the chart generator: its rewrite chain, its resources and replica dials, and the four files |
| `DriftCheck`, `DriftLines`, `DriftNoise`, `DriftQuotes`, `DriftEntries`, `NoDrift` | the drift checker, what it sees of single lines and what it cannot see, and the no-drift invariant from generator to verdict |
| `Overlap`, `HelmSource`, `HelmLines` | why rewriting the tokens of a document, and dialling its lines, is doing so to its text |
| `ChartEntries`, `ChartFacts`, `ChartValues`, `ChartDials` | the chart's own rules: that they leave the entries of the one quoting rule alone, and that the values the no-drift check needs exist |
| `ChartSource`, `ChartText` | the chart's own rules again: that everything the generator does to the tokens of a document is what it does to its text |
| `Reload` | keep-last-good reloading of the tool policy and the route table |
| `SpendLedger` | the per-agent monthly spend counters |
| `Decimal` | the exact-decimal printer of budgets |
| `Prelude`, `Text` | shared vocabulary: options, lists, text and lines |

A protocol is a function `Apply` on states and a `Run` over arbitrary lists of steps; a step the code
would refuse leaves the state alone, so a statement about every run covers every interleaving, loss,
retry and fan-out. Where the source changes objects in place the model has a class (`Server`,
`SeenSet`, `Consumer`, `Holder`, `Store`) whose methods are proved to be runs of the machine, or
methods with loops proved against a function on values.

The generator's results hold for every chain of rules around the one rule that quotes. The chart's own
rules are `HelmChart.ChartRules`; for them the conditions are stated on the input text, and
`ChartDials.ChartHasValues` shows that the values assumed exist. Documents are read as tokens:
characters and template actions. For inputs without braces `ChartText.FinalSource` shows that this is
the text the generator works on.

## Where the code and its documentation differ

The model follows the code.

- A chain of hops is not bounded by the depth limit of each of its forwarders: every launcher checks
  only the hop it sends itself. `MeshBounds.ChainOutgrowsAForwarder` is a mesh of mixed limits with a
  run in which a chain outgrows one; `MeshBounds.GuardsExact` is the exact condition.
- The comments of `cmd/launcher/async.go` expect a failed event to be retried and then dead-lettered.
  The id is marked before the agent runs, so a retry within the time to live is acknowledged as a
  duplicate. `AsyncConsumer.RetryIsLost` is such a run, `AsyncConsumer.RetryRunsIff` says exactly when
  a retry runs the agent again, and `AsyncConsumer.LostExactly` exactly which events are acknowledged
  without success.
- An inline payload that happens to be an object with a top-level `$ref` is taken for a parked one by
  the consumer: `CloudEvents.PayloadSurvivesIff`.
- The chart promises to render back to its input. One rule replaces a bare image reference by a
  template that always quotes. A text comes back if and only if it has no entry of that image
  (`NoDrift.SubstitutionExact`); the entry itself does not (`NoDrift.EgressQuotes`).
- The checker is meant not to see those quotes. It does not if and only if nothing but quotes and then
  blanks follows the image on its line (`NoDrift.FinalExact`, `NoDrift.SilentText`); with one more
  character after the image it reports a difference (`NoDrift.TrailingTextDrifts`). So the no-drift
  verdict holds exactly when nothing but quotes and then blanks follows any entry of a chart resource
  on its line (`NoDrift.EndToEnd`, and `NoDrift.ChartEndToEnd` on the input texts).
- A comment inserted between a bare key and its word is taken for the word
  (`DriftNoise.CommentCanHijackAKey`); `DriftNoise.NoiseInvisible` says exactly when a comment is
  invisible.
- `parseGuardInt` is documented to refuse negative limits; it falls back to the default.
- A route table is documented to have no valid empty state; startup accepts an empty one, and only
  reloading never introduces one (`Reload.RoutesNeverBlanked`).

## Assumptions

- An agent that forwards within a conversation echoes the envelope it was delivered; the launcher does
  not check that an echoed envelope was addressed to it. The step `Chain` of `Mesh` states this.
- JSON is seen through a `Codec` with one law: both decoders recover what the encoder wrote.
- The object store's hash is injective and a reference names its key (`CloudEvents.LawfulBlobs`).
- Template evaluation is a function from actions to text (`HelmText.Values`); the values of the
  no-drift check give every action of the chain its kustomize literal (`NoDrift.Defaults`), except that
  the one quoting template gives the quoted literal.
- A write of the seen-set that lands after its client gave up is the step `MarkError` of
  `AsyncConsumer` taken when the write lands: redeliveries arrive whether or not an earlier delivery
  was answered, so the run exists, with the 503 recorded at the landing.
- Two times in one calendar month are less than 31 days apart (`SpendLedger.Monthly`).

## Model

| member | source | states |
|---|---|---|
| `Amp.ParseGuardInt` | cmd/launcher/amp.go:1048-1060 | a configured limit is always at least 1; only a non-empty non-integer is an error; a positive number is taken as it is |
| `Amp.CallersExact` | cmd/launcher/amp.go:302-318 | after parsing an allowlist, a caller is admitted exactly when its role is set and its name stands in the text between commas or the ends and any blanks, or the text holds nothing but commas and blanks |
| `Amp.ParseCallerList` | cmd/launcher/amp.go:302-318 | the loop yields the trimmed, non-blank entries in order, and the shortcut for a blank list agrees with it |
| `Amp.LoadConfig` | cmd/launcher/amp.go:265-298 | without a registry id the launcher is no member whatever else is set; otherwise it fails exactly on a bad port or limit, and a member runs under its own name with positive limits, 8 and 32 by default |
| `Amp.EnvelopeHeader` | cmd/launcher/amp.go:146-160 | nothing exactly when both names are empty, conflict exactly when both are set and differ, otherwise the one text both names agree on |
| `Amp.CheckGuards` | cmd/launcher/amp.go:869-901 | a hop passes exactly when depth is within the limit, the receiver is not on the path and budget remains; each guard is reported exactly when it fails and those before it do not |
| `Amp.Incoming` | cmd/launcher/amp.go:945-956 | a request starts a conversation exactly when it carries no envelope, is refused as conflicting exactly when the two names disagree, and otherwise continues what either name decodes to |
| `Amp.BuildEnvelope` | cmd/launcher/amp.go:554-607 | the envelope filled in field by field is the specified first or chained stamp, or the header's error |
| `Amp.ValidTarget` | cmd/launcher/amp.go:986-1002 | accepts exactly the words of 1 to 63 ASCII letters, digits and dashes |
| `Amp.HandleCall` | cmd/launcher/amp.go:436-496 | target, body, envelope and guards are decided in this order; whatever is forwarded or published is within the depth limit, with a receiver new to its path and budget left; only an asynchronous call on a configured edge is published |
| `Amp.ModesAgree` | cmd/launcher/amp.go:489-512 | for every request, asking for the asynchronous mode turns a forward into a publish, or into a refusal without an edge, and changes no other answer |
| `Amp.EnforceInbound` | cmd/launcher/amp.go:746-789 | when each answer is given: conflicting headers, no envelope, a malformed one, one of another registry, one without role or from a caller off the list, and an admitted one |
| `Amp.HeaderNamesAgree` | cmd/launcher/amp.go:146-160 | an envelope under either name or both gets one verdict, and is admitted exactly when it is of this registry and its caller is allowed |
| `CloudEvents.EventOf` | cmd/launcher/cloudevent.go:63-83 | the event has the required non-empty attributes exactly when message id, sender and receiver are set |
| `CloudEvents.EnvelopeToCloudEvent` | cmd/launcher/cloudevent.go:63-83 | every attribute of the event is the named field of the envelope, the type and content type are the constants, and the data is the encoded envelope |
| `CloudEvents.CloudEventToEnvelope` | cmd/launcher/cloudevent.go:94-114 | another type, no data and undecodable data are the three errors; otherwise the decoded envelope, with the event id where it has no message id |
| `CloudEvents.EventRoundTrip` | cmd/launcher/cloudevent.go:63-114 | decoding an encoded envelope gives it back exactly when it has a message id |
| `CloudEvents.Offload` | cmd/launcher/objectstore.go:206-226 | keeps the store content-addressed and everything parked before, leaves a payload of at most 256 KiB alone and parks every larger one under its hash |
| `CloudEvents.PayloadSurvivesIff` | cmd/launcher/objectstore.go:206-287 | a payload reaches the agent unchanged, whatever else is parked meanwhile, exactly when it is not an inline payload shaped like a reference |
| `CloudEvents.RehydrateExact` | cmd/launcher/objectstore.go:248-287 | a payload that is no reference is taken as it is; a reference into the bucket fetches its object unless it dangles or is too large; any other reference is refused |
| `CloudEvents.AsyncHopExact` | cmd/launcher/async.go:395-418 | offload, encode, decode and rehydrate deliver the stamped envelope exactly when it has a message id and its payload is not shaped like a reference |
| `CloudEvents.SyncAsyncAgree` | cmd/launcher/async.go:335-357 | whatever arrives asynchronously differs at most in the payload, and the callee admits it exactly when it would have admitted the synchronous call |
| `Mesh.ChainStamped` | cmd/launcher/amp.go:590-607 | a chained hop that passes its guards extends a well-stamped envelope to a well-stamped one |
| `Mesh.CarriedIsEnvelope` | cmd/launcher/async.go:335-357 | on either transport the callee receives the sender's own envelope up to the payload |
| `Mesh.Launch` | cmd/launcher/amp.go:436-512 | a call of a member puts in flight exactly the envelope its handler forwards or publishes, and nothing when it refuses |
| `Mesh.FirstExact` | cmd/launcher/amp.go:554-582 | when a first call is sent, and every field of its envelope |
| `Mesh.ChainExact` | cmd/launcher/amp.go:584-607 | when a call within a conversation is sent, and every field of its envelope |
| `Mesh.DeliverExact` | cmd/launcher/amp.go:746-789 | when a hop is taken, and the envelope its callee receives |
| `Mesh.MeshInvariant` | cmd/launcher/amp.go:554-607 | after every run: depth is the path's length, the path is duplicate-free, ends in the sender and excludes the receiver, the role is the sender's, the budget is the origin's minus the hops made and at least 1, all agents on it are of one registry, a chained hop continues a delivered one with registry, trace and conversation unchanged, and a member that was delivered a hop allows its sender |
| `Mesh.LineageExact` | cmd/launcher/amp.go:590-607 | the chain behind a hop is exactly as long as its depth, its k-th hop has the first k agents of the path, and all carry the origin's registry, trace and conversation |
| `Mesh.RegistryConfinement` | cmd/launcher/amp.go:746-789 | every agent on the path of a hop a member accepted, and the acceptor, are in one registry, in every run and under either header name |
| `MeshBounds.GuardsExact` | cmd/launcher/amp.go:869-901 | a walk of members passes every guard if and only if its agents are distinct, each sender's own hop is within its depth limit, and the length is within the origin's budget |
| `MeshBounds.UniformGuardsExact` | cmd/launcher/amp.go:853-901 | when the senders of a walk share one depth limit D and one budget N, a walk of k hops passes if and only if its agents are distinct and k is at most D and N |
| `MeshBounds.WalksExact` | cmd/launcher/amp.go:746-901 | some run forwards a call along a walk of members if and only if the walk passes every guard, its targets are DNS labels, and every agent on the way is of the origin's registry and allows the agent before it |
| `MeshBounds.ChainOutgrowsAForwarder` | cmd/launcher/amp.go:869-876 | a run of a mesh of mixed limits whose chain is longer than the depth limit of one of its forwarders |
| `MeshBounds.ChainBound` | cmd/launcher/amp.go:579-605 | in every run a hop's depth is at most the origin's budget, its sender's depth limit and the number of agents, one less once delivered |
| `MeshBounds.TreeBound` | cmd/launcher/amp.go:579-605 | in every run, whatever else it interleaves, a conversation of fan-out f under depth limits up to d forwards at most f + f^2 + ... + f^d hops |
| `MeshBounds.ForestBound` | cmd/launcher/amp.go:579-605 | any set of interleaved conversations of that fan-out forwards at most so many times the bound |
| `MeshBounds.ExecutionBound` | cmd/launcher/amp.go:869-901 | no conversation of bounded fan-out has more than twice that many steps that change anything in it |
| `AsyncConsumer.RunKeepsInv` | cmd/launcher/async.go:112-117 | in every run, with any replicas, redeliveries, expiries, crashes and store errors, writes of one id are a time to live apart and every duplicate has a write behind it |
| `AsyncConsumer.AtMostOncePerWindow` | cmd/launcher/async.go:230-274 | two invocations of one message id come from marks at least the time to live apart |
| `AsyncConsumer.ReplyIsFinal` | cmd/launcher/async.go:231-238 | a replied delivery never changes; after a store error the agent is never invoked for it |
| `AsyncConsumer.AckOnlyIf` | cmd/launcher/async.go:239-296 | 204 is answered only if this delivery's own invocation came back below 500 or another delivery marked the id within the time to live |
| `AsyncConsumer.Reply` | cmd/launcher/async.go:187-296 | 503 exactly after a store error, 502 exactly for a payload not fetched, an unreachable agent or a server error, 204 exactly for a duplicate or an answer below 500 |
| `AsyncConsumer.LostExactly` | cmd/launcher/async.go:187-296 | an id is acknowledged with no success anywhere if and only if a delivery of it came up as a duplicate within the time to live of a mark and every delivery that marked it failed (store reply lost after the write, payload not fetched, agent unreachable or 5xx, replica dead) or is still at work |
| `AsyncConsumer.RetryIsLost` | cmd/launcher/async.go:274-290 | a server error followed by a prompt redelivery is acknowledged and has no success |
| `AsyncConsumer.LostUntilExpiry` | cmd/launcher/async.go:187-296 | once every mark of an id has failed, in any continuation an invocation succeeds only behind a mark at least the time to live after every failed one |
| `AsyncConsumer.RetryRunsIff` | cmd/launcher/async.go:179-186 | a retry whose payload can be fetched runs the agent exactly when no write of the id is younger than the time to live, and is acknowledged otherwise |
| `AsyncHandler.SeenSet.MarkSeen` | cmd/launcher/async.go:112-117 | one atomic set-if-absent with expiry; an error hides whether it took effect |
| `AsyncHandler.Consumer.FirstSeen` | cmd/launcher/async.go:305-323 | without a store every message is first seen; with one, the store's answer or its error |
| `AsyncHandler.Consumer.Consume` | cmd/launcher/async.go:187-296 | for every configuration, what is answered, whether the agent is invoked and what the seen-set holds, case by case: 204 only after an invocation below 500 or on a live mark, 502 without an invocation for a payload that cannot be fetched; seen-set and reply are those of the machine's run for this delivery |
| `Discovery.RunKeepsInv` | cmd/discovery/server.go:142-228 | every interleaving keeps conservation, the wakeup invariant, queue bounds and a single close |
| `Discovery.BroadcastConservation` | cmd/discovery/server.go:211-228 | delivered, queued, dropped and still to be sent are together exactly the installs made while registered; a queue never exceeds 8; the shutdown channel closes at most once |
| `Discovery.NoLostWakeup` | cmd/discovery/server.go:142-181 | a subscriber with nothing queued, in flight or owed has read the manifest of the very last install |
| `Discovery.DrainProgress` | cmd/discovery/server.go:166-181 | a subscriber that is not drained always has a step that shrinks its backlog |
| `Discovery.CatchUpBound` | cmd/discovery/server.go:166-181 | between installs the effective steps of a subscriber and its remaining backlog never exceed the backlog it started from, whatever others do |
| `Discovery.CaughtUp` | cmd/discovery/server.go:166-181 | a subscriber that stays has read the manifest of the last install after at most its backlog of effective steps |
| `DiscoveryServer.Server.Tools` | cmd/discovery/server.go:119-129 | answers with the manifest of the last install, which is the machine's read: a client that owed one has then seen every install |
| `DiscoveryServer.Server.Register` | cmd/discovery/server.go:149-153 | a new empty channel joins the subscribers and nothing else changes |
| `DiscoveryServer.Server.Forward` | cmd/discovery/server.go:175-179 | the oldest queued version goes to the client and no other queue changes |
| `DiscoveryServer.Server.Unregister` | cmd/discovery/server.go:155-159 | the channel leaves the subscribers, is never closed, and nothing else changes |
| `DiscoveryServer.Server.SignalShutdown` | cmd/discovery/server.go:241-243 | however often it is called the channel is closed once |
| `DiscoveryServer.Server.Swap` | cmd/discovery/server.go:213-219 | one lock section installs the manifest and snapshots exactly the current subscribers |
| `DiscoveryServer.Server.TrySend` | cmd/discovery/server.go:222-228 | a send queues the version if there is room and otherwise changes no channel |
| `DiscoveryServer.Server.Broadcast` | cmd/discovery/server.go:221-228 | the loop sends to each subscriber of the snapshot exactly once, in any order |
| `DiscoveryServer.Server.HandleControl` | cmd/discovery/server.go:189-232 | a bad request changes nothing; a good one is an install followed by its sends |
| `HelmText.ReplaceRenders` | hack/gen_helm_chart.py:418-427 | replacing a literal by something that renders like it leaves every document's rendering alone |
| `HelmText.ReplaceNothing` | hack/gen_helm_chart.py:418-427 | a text that does not hold the literal is left alone |
| `HelmText.ReplaceLeftmost` | hack/gen_helm_chart.py:418-427 | the leftmost occurrence is replaced, and the rest of the text behind it likewise |
| `HelmSource.ReplaceAgree` | hack/gen_helm_chart.py:418-427 | replacing a pattern, which may itself hold an action, in the tokens of a document is replacing its text in the document's text, when no action can be mistaken for a part of it |
| `HelmSource.NamespacedAgree` | hack/gen_helm_chart.py:612-618 | rewriting namespace keys in the tokens is the word-bounded substitution on the text |
| `HelmSource.NamespaceReplaced` | hack/gen_helm_chart.py:612-618 | the install namespace behind a namespace key, any blanks and before a word boundary becomes the template, blanks kept |
| `HelmSource.NamespaceKept` | hack/gen_helm_chart.py:612-618 | at any other place nothing changes |
| `HelmSource.NamespacedOnce` | hack/gen_helm_chart.py:442-446 | the substitution is idempotent: it leaves no key with the install namespace behind |
| `HelmSource.ChainAgree` | hack/gen_helm_chart.py:418-605 | the same for a whole ordered chain of rules, routed ones included |
| `ChartSource.SubstitutedSource` | hack/gen_helm_chart.py:418-605 | for every text without braces, the chart's substituted document written down is what its whole chain of text replacements makes of the text, through the routed rule and the rule that rewrites a rewritten block |
| `HelmLines.DialAgree` | hack/gen_helm_chart.py:642-679 | dialling the resources of a document's lines of tokens is dialling those of its text, when no action over several lines stands inside a block that could be dialled |
| `HelmLines.RowExact` | hack/gen_helm_chart.py:657-675 | what the scan reads off a line: blank, how far indented, opening a resources block, limits or requests, storage |
| `ChartText.FinalSource` | hack/gen_helm_chart.py:642-815 | for every document without braces whose injected worker block, if any, does not stand inside a block that could be dialled, what is written for it is its text after the whole chain of replacements, the resources dial, the subject namespaces and the replica dials |
| `ChartText.NothingHardcoded` | hack/gen_helm_chart.py:612-715 | in no rewritten document does a namespace key still name the install namespace |
| `HelmChart.NamespacedRenders` | hack/gen_helm_chart.py:612-618 | pointing namespace keys at the release namespace leaves the rendering alone when it evaluates to the install namespace |
| `HelmChart.EnvPreserves` | hack/gen_helm_chart.py:47-53 | an environment rule preserves rendering exactly when its template evaluates to its literal |
| `HelmChart.ChainRenders` | hack/gen_helm_chart.py:418-605 | an ordered chain of preserving rules, including one that rewrites a rewritten block, preserves rendering |
| `HelmChart.Substitute` | hack/gen_helm_chart.py:418-605 | the document reassigned rule by rule is the chain applied to it |
| `HelmChart.GatewayRouted` | hack/gen_helm_chart.py:513-521 | the gateway address of a token-service document becomes its own value, that of any other the back end's |
| `HelmDials.FindBlockEnd` | hack/gen_helm_chart.py:666-672 | the two loops find the end of the block |
| `HelmDials.BlockExact` | hack/gen_helm_chart.py:666-672 | a block is the maximal blank-or-deeper run minus trailing blanks, there is one, and it is the one found |
| `HelmDials.DialableExact` | hack/gen_helm_chart.py:657-674 | a line is eligible exactly when it opens a block, the first filled one of the two lines after it holds limits or requests, and no line of the block holds a storage size |
| `HelmDials.TemplateResources` | hack/gen_helm_chart.py:642-679 | the scan replaces the block of the first eligible line, or returns the document |
| `HelmDials.DialExact` | hack/gen_helm_chart.py:642-679 | exactly the block after the first eligible line is replaced, by the template of its values path two blanks deeper, and every other line stays; with no eligible line, as for RBAC lists and storage claims, nothing changes |
| `HelmDials.DialRenders` | hack/gen_helm_chart.py:642-679 | rendering is preserved when the dial evaluates to the block it replaced |
| `HelmFiles.Generate` | hack/gen_helm_chart.py:685-729 | one pass fills the four lists with the rewritten documents of their file, each in input order |
| `HelmFiles.WriteFile` | hack/gen_helm_chart.py:759-815 | writing a file dials the replicas of its Deployments by the first matching marker and keeps all else |
| `HelmFiles.InstalledExact` | hack/gen_helm_chart.py:380-390 | under any setting of the gates a document is installed exactly when it is no Namespace and the gate of its kind or component is open: definitions, the four components of the development data plane, the console's back end; without such a component it always is |
| `HelmFiles.KindOnLines` | hack/gen_helm_chart.py:408-410 | the kind is the word after its key on the first line that starts with it |
| `HelmFiles.LabelOnLines` | hack/gen_helm_chart.py:401-405 | the component is the word after the label on the first line that starts with it, four blanks in |
| `HelmFiles.DialledFile` | hack/gen_helm_chart.py:629-639 | a workload with a resources dial is in the data plane's file exactly when its dial is one of that plane's values, and in the back end's exactly when it is its dial |
| `HelmFiles.BackEndReplicas` | hack/gen_helm_chart.py:802-815 | a single-replica Deployment of the back end is written with its replica template |
| `HelmFiles.PlaneReplicas` | hack/gen_helm_chart.py:742-766 | a single-replica Deployment of the control plane with one marker is written with the template of that marker |
| `HelmFiles.WrittenIsFinal` | hack/gen_helm_chart.py:731-815 | what is written for a file is the final form of exactly its documents |
| `HelmFiles.InFilesExact` | hack/gen_helm_chart.py:717-729 | exactly the documents that are no Namespace are in the chart |
| `HelmFiles.FilesPartition` | hack/gen_helm_chart.py:717-729 | counted with repetition, every document is in exactly one of the files or dropped |
| `DriftCheck.Normalize` | hack/helm_nodrift_diff.py:38-57 | the loop yields the normal form of the lines |
| `DriftLines.DroppedExact` | hack/helm_nodrift_diff.py:41-47 | a line is dropped if and only if it is blank, a comment or the label that names the tool |
| `DriftLines.PlainExact` | hack/helm_nodrift_diff.py:38-57 | two kept lines that hold no value are taken for the same if and only if they agree up to blanks at their ends |
| `DriftLines.QuotedValue` | hack/helm_nodrift_diff.py:52-55 | a value in quotes of either kind loses them and the blanks around it |
| `DriftLines.BareValue` | hack/helm_nodrift_diff.py:52-56 | a value not in quotes keeps everything but the blanks at its end |
| `DriftLines.LineExact` | hack/helm_nodrift_diff.py:38-57 | documents that differ in one line have one normal form if and only if that line has |
| `DriftLines.ChangeDiffers` | hack/helm_nodrift_diff.py:83-124 | a resource whose counterpart differs in a kept line that holds no value, by more than blanks at its end, is reported as differing |
| `DriftLines.InertChangeDiffers` | hack/helm_nodrift_diff.py:60-124 | for a line without part in any key, such as an image, that needs nothing of its counterpart's key |
| `DriftLines.CutExact` | hack/helm_nodrift_diff.py:30-35 | three dashes and blanks cut a stream, and no other line does |
| `DriftLines.FieldAt` | hack/helm_nodrift_diff.py:60-69 | a field is the word after its prefix on the first line that starts with it |
| `DriftLines.KeyAt` | hack/helm_nodrift_diff.py:65-69 | the key of a document is the kind, the namespace and the name that the first lines with their prefixes carry, with an empty part where no line has the prefix |
| `DriftLines.KindAt` | hack/helm_nodrift_diff.py:75-76 | a document is looked at exactly when a line of it starts with the kind |
| `DriftLines.HookAt` | hack/helm_nodrift_diff.py:23-27 | a line with the hook key, in quotes of either kind or none, and a colon makes its document a hook |
| `DriftLines.HookHas` | hack/helm_nodrift_diff.py:23-27 | a hook has a line that starts, behind blanks and at most one quote, with the hook key |
| `DriftCheck.SplitJoin` | hack/helm_nodrift_diff.py:30-35 | cutting joined documents gives them back |
| `DriftCheck.Bucket` | hack/helm_nodrift_diff.py:72-80 | the loop yields the normal forms of the resources by key, later ones winning |
| `DriftCheck.Compare` | hack/helm_nodrift_diff.py:83-124 | a problem is reported exactly when it is justified |
| `DriftCheck.VerdictExact` | hack/helm_nodrift_diff.py:83-124 | no problem is justified if and only if the release Namespace is absent from helm and the two maps agree elsewhere |
| `DriftCheck.Check` | hack/helm_nodrift_diff.py:83-132 | the whole check reports exactly the justified problems, and nothing if and only if the streams are in sync |
| `DriftCheck.ResourcesExact` | hack/helm_nodrift_diff.py:72-80 | a key is found exactly when a resource has it, with that resource's lines |
| `DriftCheck.OrderIrrelevant` | hack/helm_nodrift_diff.py:72-80 | the buckets depend neither on the order of distinct-keyed documents nor on documents that are no resources |
| `DriftNoise.NoiseInvisible` | hack/helm_nodrift_diff.py:38-69 | a blank line anywhere changes nothing the checker sees; a comment changes nothing if and only if no field before it is left open for its first word, or that word would have filled it, and it does not part the only hook key from its colon |
| `DriftNoise.StreamNoise` | hack/helm_nodrift_diff.py:30-80 | inserted anywhere into a stream, a blank line, or a comment invisible in the document it lands in, leaves every bucket alone |
| `DriftNoise.CommentCanHijackAKey` | hack/helm_nodrift_diff.py:60-69 | a comment after a bare key becomes its value |
| `DriftNoise.PaddingInvisible` | hack/helm_nodrift_diff.py:38-69 | any block of comments and blank lines in front of a document is invisible |
| `DriftQuotes.LikesLevel` | hack/helm_nodrift_diff.py:38-80 | documents that differ in inert lines have the same key, kind and hook answer, and look alike exactly when their normal forms agree line by line |
| `DriftQuotes.QuietExact` | hack/helm_nodrift_diff.py:52-56 | the checker takes the bare and the quoted image line for the same if and only if nothing but quotes and then blanks follows the image |
| `DriftEntries.EgressLines` | hack/gen_helm_chart.py:320-329 | the quoting rule changes the rendering of a document in value lines only, and the checker sees none of them if and only if what follows every entry on its line is quiet |
| `ChartEntries.EveryReplace` | hack/gen_helm_chart.py:418-427 | replacing patterns that cannot overlap an entry neither makes, hides nor changes what follows one |
| `ChartFacts.EveryNamespaced` | hack/gen_helm_chart.py:442-446 | nor does pointing namespace keys at the release namespace |
| `ChartFacts.ChartBypasses` | hack/gen_helm_chart.py:418-592 | no rule of the chart before the quoting one can overlap an entry |
| `ChartValues.ChartHasDefaults` | hack/gen_helm_chart.py:418-605 | one assignment of the chart's templates, several of which are shared, gives every rule its literal |
| `ChartDials.ChartHasValues` | hack/gen_helm_chart.py:418-679 | for documents without braces whose dials all replace something, and stand for equal blocks where they are equal, some values give every template its literal and every dial its block |
| `NoDrift.MeaningPreserved` | hack/gen_helm_chart.py:418-605 | if every template evaluates to its literal, rendering the substituted document gives the document back |
| `NoDrift.SubstitutionExact` | hack/gen_helm_chart.py:593-593 | with the check's values the chart's substitution gives a text without template actions back if and only if it has no entry of the sidecar image |
| `NoDrift.EgressQuotes` | hack/gen_helm_chart.py:320-329 | the entry itself does not come back from the chart's substitution |
| `NoDrift.FinalExact` | hack/gen_helm_chart.py:685-729 | substituted, dialled, written and rendered, a document keeps its key, kind and hook answer, and looks to the checker like the one it came from if and only if what follows every sidecar entry on its line is quiet |
| `NoDrift.SilentText` | hack/gen_helm_chart.py:593-593 | for the chart's rules that is a condition on the input text |
| `NoDrift.TrailingTextDrifts` | hack/gen_helm_chart.py:320-329 | one more character after the image, and the document looks different to the checker |
| `NoDrift.WriteChart` | hack/gen_helm_chart.py:685-815 | under any setting of the gates the generator's loop and the four files together hold the final form of every document that is installed, file by file in input order |
| `NoDrift.VerifyChart` | hack/helm_nodrift_diff.py:83-132 | generating, writing, rendering and checking reports nothing if and only if every chart resource is silent |
| `NoDrift.EndToEnd` | hack/helm_nodrift_diff.py:83-132 | for distinct-keyed documents without template actions whose only Namespace is the release one, and values that give every template its literal and every dial its block, the rendered chart, in any order and any frames, is in sync with the kustomize stream if and only if every chart resource is silent: in the document that reaches the quoting rule nothing but quotes and then blanks follows a sidecar entry on its line |
| `NoDrift.ChartEndToEnd` | hack/helm_nodrift_diff.py:83-132 | for the chart's own rules that is decided by the input texts: nothing but quotes and then blanks follows any sidecar entry of a chart resource on its line |
| `Reload.LastGoodExact` | cmd/egress-sidecar/policy_reload.go:96-113 | the held value is the meaning of the last meaningful read, or the first value if there was none |
| `Reload.Converges` | cmd/egress-sidecar/watch.go:46-63 | one successful read after the final change reaches it, whatever events were coalesced before or after |
| `Reload.TurnExact` | cmd/egress-sidecar/watch.go:32-63 | while the loop runs, a turn contributes a read exactly when its event creates, writes, renames or removes; a watch error contributes none and the loop goes on, anything else ends it |
| `Reload.WatchConverges` | cmd/egress-sidecar/watch.go:46-63 | one such event whose read means the final value, and no later read that means another, leave that value held |
| `Reload.PolicyMeaning` | cmd/egress-sidecar/policy_reload.go:54-113 | a missing or blank policy file means no policy, an undecodable or unreadable one keeps the last |
| `Reload.RouteMeaning` | cmd/egress-sidecar/routes_reload.go:62-85 | only a readable, parsable, non-empty route table means anything |
| `Reload.StaysParsed` | cmd/egress-sidecar/routes_reload.go:62-85 | what is held is always the parse of the text held |
| `Reload.RoutesNeverBlanked` | cmd/egress-sidecar/routes_reload.go:62-85 | the held table is empty exactly when it was empty at first and no read brought a non-empty one |
| `Reload.PolicyClearedIff` | cmd/egress-sidecar/policy_reload.go:54-113 | there is no policy exactly when the deciding read found no file or a blank one, or there never was one |
| `Reload.Holder.LoadInitial` | cmd/egress-sidecar/policy_reload.go:72-86 | startup fails exactly on a file that cannot be read or parsed, and then holds what it held |
| `Reload.Holder.Reload` | cmd/egress-sidecar/routes_reload.go:62-85 | skipping an unchanged text gives the same as always reparsing |
| `Reload.Holder.Watch` | cmd/egress-sidecar/watch.go:32-63 | the loop leaves the fold of the simple specification over the reads of relevant events before it is stopped |
| `SpendLedger.KeyInjective` | cmd/launcher/agent_spend.go:61-63 | plain-named agents or months that differ never share a key |
| `SpendLedger.SlashesClash` | cmd/launcher/agent_spend.go:123-131 | names with slashes could |
| `SpendLedger.RunKeeps` | cmd/launcher/agent_spend.go:76-82 | in every run a counter holds exactly what was booked to its key until 62 days after the first booking |
| `SpendLedger.LedgerExact` | cmd/launcher/agent_spend.go:76-145 | read in its own month an agent's counter is exactly the sum of the positive amounts booked for it, and it has not expired |
| `SpendLedger.Store.IncrByFloat` | cmd/launcher/agent_spend.go:78-80 | adds and keeps the expiry, or starts an absent counter; a lost reply may hide the effect |
| `SpendLedger.Store.Expire` | cmd/launcher/agent_spend.go:81-81 | sets 62 days on a counter that is there |
| `SpendLedger.Store.AddSpend` | cmd/launcher/agent_spend.go:76-82 | what it books, on the counters themselves: an increment that takes effect adds exactly the amount, once, to the agent's counter of the month of the call, no other counter changes, and the expiry is renewed to 62 days only after an acknowledged increment |
| `SpendLedger.Store.PostCall` | cmd/launcher/agent_spend.go:138-145 | an unnamed agent or a non-positive amount changes nothing; otherwise the same booking |
| `SpendLedger.CallBooks` | cmd/launcher/agent_spend.go:76-145 | the machine's steps of one call book in that same sense |
| `Decimal.FloatToDecimal` | cmd/ctxmesh/expand_compat.go:98-107 | trimming every trailing zero and padding back to two is trimming down to two |
| `Decimal.RoundTrip` | cmd/ctxmesh/expand_compat.go:98-107 | parsing what was printed gives the amount back |
| `Decimal.PrintedInjective` | cmd/ctxmesh/expand_compat.go:98-107 | different amounts print differently |
| `Decimal.PrintedShape` | cmd/ctxmesh/expand_compat.go:98-107 | two to six fractional digits, and beyond two the last is not zero |
| `Decimal.PrintedIsBudget` | api/v1alpha1/agentdeployment_types.go:53-53 | what is printed matches the budget pattern if and only if the amount is not negative |

## Left out

- HTTP transport, DNS, dial errors, tracing, UUIDs and pod tokens: outcomes and fresh ids are parameters.
- The proxy clients of the seen-set and the ledger: the same interfaces as the stores modelled.
- JSON at the level of bytes: values with a codec law; Go may re-escape the bytes of a payload.
- Targets in other namespaces: one namespace of launchers, by agent name.
- A consumer with no store configured has no at-most-once guarantee; only its handler is modelled.
- A denied asynchronous call is answered below 500 and so acknowledged; the model treats every answer below 500 as processed, as the code does.
- Channels are never closed because the machine has no step that closes one, as the code has none.
- Normalisation of a manifest, parsing of policies and routes, and JSON decoding of route lists: parameters.
- Text: ASCII white space and word characters only, and lines end at line feeds only. Blank lines after a separator line stay with the next document, where the checker ignores them.
- Helm itself: template evaluation is abstract, and the key order that `toYaml` changes is excluded by asking the dial to evaluate to the block it replaced.
- The text of the banners and of the conditional lines around three of the files, whose gates are parameters, and the cutting of the generator's input, whose documents are given as a list.
- NoDrift.MeaningPreserved: is about the tokens of the chart text, in which a brace of the input is an ordinary character; `ChartText.FinalSource` is the link to the text.
- ChartText.FinalSource: leaves out documents with braces, and those in which the injected worker block of five lines stands inside a block that could be dialled: there the model counts it as one line.
- DriftCheck.Compare: states which problems are reported, not their order nor the unified diff printed under a difference.
- A change made between the initial load and the start of the watch is seen only at the next event; the model starts at the watch.
- Amounts are exact reals and fixed-point millionths: Go's float rounding, and the sign of a negative amount that rounds to zero, are not modelled.
- Controllers, the console, the SDK and the command-line tooling around these components.
