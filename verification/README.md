# LLM AutoTune, modelled and proved

LLM AutoTune looks for the launch flags that serve a model best. It turns engine
configs into command lines and reads command lines back into configs, hands out
cards, ports, nodes and datasets to the campaigns that measure them, keeps the
status of those campaigns, judges what they measured, and prints reports other
programs read. This project models that logic in Dafny and proves what it
promises, for all inputs, all interleavings and all sequences of calls.

Where the code keeps a promise only under a condition, the code is modelled as
it is, a lemma names an input for which the promise fails, and another gives the
exact condition. The main ones:

- The report of what would not survive a command line passes exactly the configs
  whose every value is plain (`Passing.PassesExactlyWhenPlain`, when no two keys
  speak for one name). For any config it can be trusted exactly unless a switch
  that is off takes the answer of its own `no_` form, written after it
  (`SwitchPairs.TrustedExactlyUnlessStolen`): then it misses one that did not
  come back (`SwitchPairs.FooMissed`), or refuses one that did
  (`SwitchPairs.OrderDecides`).
- The mock engine's count of prefills under way leaks when a prefill raises
  (`Admission.GaugeExactlyWhenPrefillHolds`), and an engine with no slot lets
  every request wait for ever (`Admission.ServedExactlyWithASlot`).
- Port 0, which a negative service port allocates, is never seen as busy
  (`SessionLedger.PortsApartExactlyWithoutZero`), and a launch may name a card
  twice (`SessionLedger.CardsHeldExactlyWithoutRepeat`).
- A campaign's dataset pin separates from the current build when it is taken
  while a build is in flight, or read from a build that was replaced before it
  was polled (`DatasetPinning.SecureExactlyUnlessBroken` lists every such step).
- Launch settings compare as equal transitively unless a boolean, the number it
  equals and a text for either stand side by side
  (`ConfigDiff.TransitiveExactlyWhenUnmixed`), and the changes of step after step
  add up exactly when they do (`ConfigDiff.StepsReachExactlyWhenTransitive`).
- A verdict and the slack stored beside it agree on numbers and may differ on
  booleans and texts (`Judging.AgreeExactlyOnSoundKinds`); a relative redline
  under the old key is never resolved beside an empty list under the new one
  (`Rescoring.AllResolvedExactlyUnlessHidden`).
- The name pattern also accepts a line feed at the end
  (`Slugs.UnusedIsValidExactly`).
- The window a plugin shuts is opened again by the nightly clock when it has one
  (`Lifecycle.ShutStaysExactly`), and a plugin that stops its campaign may be
  told it is done too early, when a session ends on an open campaign
  (`Lifecycle.EndsTooEarly`, `Lifecycle.DoneMeansOverExactly`).

Code that changes fields or fills lists step by step is written as classes and
loops proved against a function; the properties are lemmas about that function.
What an operation answers is told a second time from its inputs alone, apart from
the function its code is proved against: `FlagWords`, `CommandReading`,
`ReportReading`, `CaptionForm`, `ClusterAnswers`, `LaunchGrants`,
`LifecycleCalls`. Each file holds one module. `Text` holds the few string operations they share.

## Model

| member | source | states |
|---|---|---|
| PluginOrder.InDependencyOrder | backend/app/plugins.py:234-263 | For distinct plugins: an order comes back exactly when every requirement is enabled and there is no cycle; it is a permutation, each plugin after what it requires, overtaking only where a requirement forces it; otherwise the first missing requirement, or a chain of requirements that closes on itself; an ordered list comes back unchanged |
| PluginOrder.Sorter.Visit | backend/app/plugins.py:249-259 | One visit ends, keeps the list grounded and free of repeats, adds only what the plugin needs, and restores the set of names being visited; or it returns a path that closes on itself |
| PluginOrder.Load | backend/app/plugins.py:193-231 | Startup loads exactly when names are distinct, each is usable and an order exists, and then in that order |
| PluginOrder.GroundedMeansAcyclic | backend/app/plugins.py:234-263 | A list in which each plugin follows what it requires is a certificate that no requirement is missing and none is cyclic |
| PluginOrder.ClosingChainIsCycle | backend/app/plugins.py:252-254 | The chain a refusal reports is a real cycle |
| Flags.NormalizeArgs | backend/app/control/engines/flags.py:250-288 | The folding loop stores each setting under its canonical key, in order, as the item by item specification does |
| FlagWords.NamedIsStored | backend/app/control/engines/flags.py:250-288 | A name of an entry is stored under the entry's key: on a switch a text that says on or off, in any case and with any whitespace around it, as what it says; anything else, and everything of a setting that is no switch, as it was given |
| FlagWords.TextSaysTheSwitch | backend/app/control/engines/flags.py:250-288 | On a switch the text of a boolean is stored as that boolean |
| FlagWords.NegationIsStored | backend/app/control/engines/flags.py:250-288 | The `no_` form of a switch's name, on, turns it off; otherwise it is a setting of its own |
| FlagWords.UnknownIsStored | backend/app/control/engines/flags.py:250-288 | What the table does not name passes through untouched |
| FlagWords.LaterWins | backend/app/control/engines/flags.py:250-288 | Of several settings that fold into one key the later's value is kept |
| FlagWords.NothingElse | backend/app/control/engines/flags.py:250-288 | Nothing is kept that no setting comes to |
| Flags.RenderArgs | backend/app/control/engines/base.py:40-76 | The rendering loop gives the argv of the config, keys in alphabetical order |
| FlagWords.NamedIsSent | backend/app/control/engines/base.py:40-76 | Under any of its names a setting goes out with its entry's flag: alone when on, negated when off and the engine or the entry has a negation, else not at all, and with its text otherwise |
| Flags.SameConfigSameCommand | backend/app/control/engines/base.py:40-76 | The order a config was written in never shows in its command |
| EngineCommand.ParseEngineArgs | backend/app/control/engine_command.py:54-116 | The index driven walk reads the argv as the recursive reading does, after dropping everything up to the first launcher |
| CommandReading.CutAtTheFirst | backend/app/control/engine_command.py:76-89 | Everything up to the first token that starts the engine is dropped, a server module or `serve` behind `sglang` on any path, and nothing when there is none |
| EngineCommand.RoundTripProblems | backend/app/control/engine_command.py:119-182 | A config that breaks a key or value guard gets only problems of its own; a guarded one gets the verdict of the comparison |
| EngineCommand.CheckGuards | backend/app/control/engine_command.py:139-159 | The guard problems reported are those of the keys and values that are not allowed, every one |
| EngineCommand.GuardSays | backend/app/control/engine_command.py:139-159 | A setting that cannot be sent is refused for its name first, and for its value only when the name can be sent |
| CommandReading.VerdictSpeaksOf | backend/app/control/engine_command.py:159-182 | The other problems are of one kind, each about a setting that was sent or that came back |
| VllmFlags.VllmIsCatalogue | backend/app/control/engines/flags.py:134-183 | In vllm's table no name speaks for two settings, none reads as a negation, and each flag is spelled as one of its names |
| SglangFlags.SglangIsCatalogue | backend/app/control/engines/flags.py:53-133 | The same of sglang's table |
| RoundTrip.CompareAllKeys | backend/app/control/engine_command.py:161-182 | The comparison loop, which pops what it matched, reports nothing exactly when the config read back from the argv is equivalent, unless a switch that is off and was not read back stands before its own `no_` form, which was |
| RoundTrip.TakenIsWrong | backend/app/control/engine_command.py:161-182 | In that case an empty report and an equivalent config never go together |
| SwitchPairs.TrustedExactlyUnlessStolen | backend/app/control/engine_command.py:159-182 | For every config: an empty report means that it came back, and one that came back has an empty report, exactly unless that case is at hand |
| SwitchPairs.BothOffMissed | backend/app/control/engine_command.py:159-182 | Where every flag can be negated, an unknown switch and its `no_` form, both off, are passed although the second came back on |
| SwitchPairs.FooMissed | backend/app/control/engine_command.py:159-182 | `foo` and `no_foo` off on vllm: passed, and not come back |
| SwitchPairs.BothOffComeBack | backend/app/control/engine_command.py:159-182 | Where they cannot be negated the same config does come back |
| SwitchPairs.OrderDecides | backend/app/control/engine_command.py:159-182 | The switch off and its `no_` form on come back on any engine; written in one order they pass, in the other they are refused |
| Passing.PassesExactlyWhenPlain | backend/app/control/engine_command.py:119-182 | A config of well shaped keys, no two of which speak for one name, passes the check exactly when each of its values is plain |
| Passing.PassingIsEquivalent | backend/app/control/engine_command.py:161-182 | What passes reads back as an equivalent config |
| Passing.ArgvLeaves | backend/app/control/engine_command.py:54-116 | Reading the argv of any config of well shaped keys and guarded values stores, key by key, what each value leaves there, also one that reads as a flag of its own, and nothing of what stands before the last launcher word |
| Survival.ArgvReadsBack | backend/app/control/engine_command.py:54-116 | Walking the rendered argv of plain values stores exactly one landing per key, in order, whatever names they speak for |
| Survival.FlagKeyFolds | backend/app/control/engines/flags.py:191-247 | A rendered flag read back as a key folds to the canonical key it was rendered from |
| OneKnob.OneSettingPasses | backend/app/control/engine_command.py:119-182 | One setting under a well shaped key survives exactly when its value is plain |
| OneKnob.TpOffDoesNotComeBack | backend/app/control/engine_command.py:159-182 | `tp` off on vllm is a config that does not survive |
| DockerRun.SplitDockerRun | backend/app/control/engine_command.py:340-387 | The token walk reads a docker run line from its first `run` on as the recursive reading does, and ends |
| DockerRun.NothingDropped | backend/app/control/engine_command.py:340-387 | On any tokens every option but the known switches ends up as env, volume, platform managed or a warning |
| DockerRun.WarnedExactly | backend/app/control/engine_command.py:340-387 | Each kind of warning is given exactly for the options that deserve it: an unknown one read as a switch, an env without a value, a volume without a path, a mount, one not carried over, no image |
| DockerRun.ManagedExactly | backend/app/control/engine_command.py:340-387 | Exactly what was given of the options the platform sets is reported as managed |
| DockerRun.EveryTokenRead | backend/app/control/engine_command.py:340-387 | Every token belongs to an option, is the image, or is in the command after it |
| DockerRun.ImageIsFirst | backend/app/control/engine_command.py:340-387 | The image is the first token that is no option's and does not begin with a dash; every option begins with one |
| DockerRun.LaterOneWins | backend/app/control/engine_command.py:216-241 | Env and volumes hold what the command line says last of each key, and no other key |
| DockerRun.DockerRoundTrip | backend/app/control/launch/ssh_docker.py:213-268 | What the ssh driver renders is taken apart again into the same image, env, volumes and argv, without a warning |
| Admission.InvStep | mock-engine/landscape.py:129-161 | Every critical section of every thread keeps the counters equal to the sums they stand for, inside the engine's limits |
| Admission.EverySchedule | mock-engine/landscape.py:129-161 | Conservation and bounds in every interleaving of any number of requests |
| Admission.LetInExactlyWithRoom | mock-engine/landscape.py:138-147 | In every reachable state a request that enters, or looks again, is let in exactly when the holders leave a slot and the tokens they hold leave room for its own, capped by the pool; nobody else is touched |
| Admission.GivenBack | mock-engine/landscape.py:149-153 | A release gives back the same tokens and one slot |
| Admission.Progress | mock-engine/landscape.py:138-153 | No deadlock: while a request is unfinished some step moves |
| Admission.Drained | mock-engine/mock_engine.py:171-187 | Where nothing moves, no tokens, no slot and no waiter are left |
| Admission.EveryScheduleEnds | mock-engine/mock_engine.py:171-187 | Every schedule, failing requests included, makes boundedly many moves and ends drained |
| Admission.CanFinish | mock-engine/landscape.py:138-153 | From any reachable state every request can be served |
| Admission.ServedExactlyWithASlot | mock-engine/landscape.py:138-147 | A batch can be served exactly when the cap leaves a slot |
| Admission.GaugeExactlyWhenPrefillHolds | mock-engine/landscape.py:155-161 | The count of prefills stays 0 or 1 in every schedule exactly when a prefill cannot raise |
| Admission.Landscape.EnterAdmit | mock-engine/landscape.py:138-147 | Entering `admit`: the fields afterwards are the counters of the state machine's next state, and whether it was let in |
| Admission.Landscape.WakeUp | mock-engine/landscape.py:138-147 | Waking in `admit`: the same for one pass of its wait loop |
| Admission.Landscape.Release | mock-engine/landscape.py:149-153 | Giving room back: the same |
| ReportBlocks.Parse | backend/app/agent/blocks.py:51-66 | The parser's loop finds the blocks the recursive reading finds, each with its line |
| ReportBlocks.LineReadsBack | backend/app/agent/blocks.py:51-72 | A printed parameter line reads back as its key and value |
| ReportReading.SaidIsRead | backend/app/agent/blocks.py:34-66 | A line that names a word of letters and underscores and a value, with any whitespace around the two, is read as that, the key in small letters |
| ReportReading.ReadIsSaid | backend/app/agent/blocks.py:34-66 | Nothing else is read from any line |
| ReportReading.BodyKeeps | backend/app/agent/blocks.py:51-66 | On any lines a block holds what was said last of each key, and under `_bad` the first line that says nothing, unless a line names that key |
| ReportReading.OpeningExactly | backend/app/agent/blocks.py:33-66 | A line opens a block exactly when it is three backticks and the name of a kind, with nothing but blanks around the name |
| ReportReading.ClosingLine | backend/app/agent/blocks.py:33-66 | A line closes one exactly when it is three backticks and blanks |
| ReportCheck.Available | backend/app/agent/blocks.py:74-113 | The loop over a comparison offers exactly the specified snippets, in order |
| ReportCheck.OfferedExactlyAccepted | backend/app/agent/blocks.py:74-162 | A block passes the check exactly when all its lines read and it names a drawing that is offered |
| ReportCheck.ReasonsExactly | backend/app/agent/blocks.py:136-162 | Which reason a refused block is given: an unreadable line, else an unknown type, else a scenario, an attempt or a config that is not the comparison's |
| Report.WrittenIsRead | backend/app/agent/blocks.py:51-72 | Parsing a report of fence free prose and snippets returns exactly those blocks, in order, each on its line |
| ReportCaptions.FreeProsePasses | backend/app/agent/blocks.py:116-162 | Prose no line of which opens a block or begins a caption, and any offered snippets: the blocks are those put in and the check finds nothing |
| Report.Problems | backend/app/agent/blocks.py:116-162 | The checker's loops report caption problems and block problems as specified |
| CaptionForm.CaptionExactly | backend/app/agent/blocks.py:32-35 | A caption is seen at the start of a text exactly when the text is whitespace, an emphasis perhaps, a word for figure or table, a number and a mark, and it ends behind the mark |
| CaptionForm.EachReportedBegins | backend/app/agent/blocks.py:116-128 | The lines reported for captions are lines outside the fences on which one begins, in order |
| CaptionForm.NoneIsMissed | backend/app/agent/blocks.py:116-128 | A caption that begins outside the fences is reported unless an earlier one goes on over its line |
| Report.PrintedComesBackExactlyWhenClean | backend/app/agent/blocks.py:69-72 | A printed block comes back as itself exactly when each value is one line without edge whitespace |
| ClusterPools.NoCardCountedTwice | backend/app/api/clusters.py:531-779 | Over any sequence of node, pool and namespace registrations each node is in at most one machine, names stay unique, and the machines hold no more cards than the cluster |
| ClusterPools.NodeMachineCovers | backend/app/api/clusters.py:484-488 | A node's machine covers the nodes of its hostname and no other |
| ClusterPools.PoolMachineCovers | backend/app/api/clusters.py:557-586 | A pool covers the nodes of its product and no other |
| ClusterAnswers.PoolsAsAsked | backend/app/api/clusters.py:663-731 | After a pool registration each new machine has the cards of the nodes it covers that take pods, no more and no fewer, and every node of a product asked for is in a machine |
| ClusterAnswers.NodesAsAsked | backend/app/api/clusters.py:601-659 | After a node registration each new machine covers one node asked for and has its cards, and every host asked for is in a machine |
| ClusterAnswers.NodesRefused | backend/app/api/clusters.py:601-659 | Refused outright exactly when a host is not the cluster's, and as a conflict when a pool has one already |
| ClusterAnswers.NodesAdded | backend/app/api/clusters.py:601-659 | Known hosts that no pool has and whose names are free are all registered, under their own names |
| ClusterAnswers.PoolsRefused | backend/app/api/clusters.py:663-731 | Refused outright exactly when no product is named or one has no node, and as a conflict when a node of one is a machine of its own |
| ClusterAnswers.PoolAdded | backend/app/api/clusters.py:663-731 | A product no machine has a node of is registered when a name for it is free |
| ClusterAnswers.NamespaceAdded | backend/app/api/clusters.py:738-779 | One machine over all nodes with the quota's cards, exactly when nodes cannot be listed, the quota is readable, the cluster has no machine and a name is free |
| ClusterAnswers.NodeNamed | backend/app/api/clusters.py:629-640 | A node's machine has the node's name, else the cluster's with the node's, when that is free and has at most 64 characters |
| ClusterAnswers.PoolNamed | backend/app/api/clusters.py:690-706 | A pool is called as its cluster with the first card type of its product, or the product, in small letters, else with the product's dashed name, shortened to 64 characters |
| ClusterPools.BuildNodes | backend/app/api/clusters.py:627-653 | The loop over hostnames adds the machines specified, or refuses the whole call |
| ClusterPools.Registry.PostNodes | backend/app/api/clusters.py:601-659 | The answer and the new machine table of a node registration |
| ClusterPools.Registry.PostPools | backend/app/api/clusters.py:663-731 | The answer and the new machine table of a pool registration |
| ClusterPools.Registry.PostNamespace | backend/app/api/clusters.py:738-779 | The answer and the new machine table of a namespace registration |
| SessionLedger.AllocationSafe | backend/app/api/policy_sessions.py:454-516 | Over any sequence of launches, releases, benchmarks and endings live launches hold disjoint cards inside the allocation and ports of their own, and a key names one run |
| LaunchGrants.GrantedExactly | backend/app/api/policy_sessions.py:1008-1070 | A launch under a new key is granted exactly when its config is valid and fits, the cards it is to hold are in the allocation and held by no live run, and a port is to be had |
| LaunchGrants.GrantedHolds | backend/app/api/policy_sessions.py:1008-1070 | It then holds the cards asked for when their count is right or the session has none, else the first free ones of the allocation, as many as its recipe needs; and the port asked for or the first free one |
| LaunchGrants.RefusedHow | backend/app/api/policy_sessions.py:475-516 | Told to wait exactly when only what other live runs hold stands against it, and refused for good otherwise |
| LaunchGrants.NothingNew | backend/app/api/policy_sessions.py:1008-1021 | Outside exploring nothing is launched, and a key used before is answered with its run; neither changes anything |
| LaunchGrants.BenchedExactly | backend/app/api/policy_sessions.py:1122-1161 | A launch is measured exactly while it serves and the session explores; the benchmark holds no card and no port, and each refusal says which of the three is missing |
| LaunchGrants.ExternalExactly | backend/app/api/policy_sessions.py:1165-1230 | An engine of the policy's own is measured exactly on an allocated port, with cards named when the session has any, and under a new key |
| SessionLedger.NoMoreLaunchesThanPorts | backend/app/api/policy_sessions.py:475-516 | A session has no more live launches than ports |
| SessionLedger.PortsApartExactlyWithoutZero | backend/app/api/policy_sessions.py:475-516 | The live launches of a session keep ports of their own in every run of launches that need cards exactly when 0 is not one of its ports or it has one card alone |
| SessionLedger.CardsHeldExactlyWithoutRepeat | backend/app/api/policy_sessions.py:475-516 | A granted launch holds as many cards as it needs exactly when it names none twice |
| SessionLedger.SameKeySameRun | backend/app/api/policy_sessions.py:424-435 | The same key again is the same run and changes nothing |
| SessionLedger.PortRefusedOnlyWhenAllBusy | backend/app/api/policy_sessions.py:475-516 | A launch that names no port is turned away for ports exactly when all are busy |
| SessionLedger.Ledger.RequestLaunch | backend/app/api/policy_sessions.py:1008-1070 | The answer and the new run table of a launch request |
| SessionLedger.Ledger.ReleaseLaunch | backend/app/api/policy_sessions.py:1086-1098 | The answer and the new run table of a release |
| SessionLedger.Ledger.BenchLaunch | backend/app/api/policy_sessions.py:1122-1161 | The answer and the new run table of a benchmark of a launch |
| Contenders.LedgerIsLastEffectiveCall | backend/app/api/policy_sessions.py:1497-1588 | After any sequence of PUTs the registered rows have distinct ranks, are within the cap, and are exactly what the last effective PUT accepted |
| Contenders.SupersededStays | backend/app/api/policy_sessions.py:1576-1580 | No row is lost or renamed and what was superseded stays as it was, whatever is sent later |
| Contenders.EachLandsOnce | backend/app/api/policy_sessions.py:1500-1538 | Each considered entry is at one place of exactly one of accepted and rejected, with the reason its list position decides |
| Contenders.AcceptedAreTheFirstEligible | backend/app/api/policy_sessions.py:1500-1538 | What is accepted is the first entries, up to the cap, that are valid and first of their rank |
| Contenders.AnswerSays | backend/app/api/policy_sessions.py:1484-1588 | The answer lists every refusal of the entries looked at, in order, and as accepted the registered rows of the table afterwards; when nothing of a list sent could be taken it accepts none and nothing changes |
| Contenders.RegisteredAs | backend/app/api/policy_sessions.py:1513-1538 | An accepted entry is registered with its own rank, evidence and trials and the checked config |
| Contenders.SameListOnlyRefreshes | backend/app/api/policy_sessions.py:1556-1574 | Sending the same ranks and configs again adds and supersedes no row, and each registered row shows the new evidence |
| Contenders.Ledger.PutContenders | backend/app/api/policy_sessions.py:1484-1588 | The answer and the new table of one PUT |
| LogWindow.SelectionIsThePromise | backend/app/api/policy_sessions.py:1408-1418 | The code's selection is the one list of items that shows the lines near a match once, in log order, with `--` exactly between lines that do not follow each other |
| LogWindow.FilterLog | backend/app/api/policy_sessions.py:1392-1419 | The loops return the last `tail` items of that selection, or of the log when there is no pattern |
| LogWindow.OpensWithDashesExactly | backend/app/api/policy_sessions.py:1408-1419 | The answer opens with `--` exactly when some line near a match has its successor left out and the entries after it number `tail - 1` |
| ConfigDiff.SameIsSameMeaning | backend/app/agent/comparison.py:185-198 | Without booleans two settings are the same exactly when they come down to the same number, text or tree |
| ConfigDiff.TransitiveExactlyWhenUnmixed | backend/app/agent/comparison.py:185-198 | On a set of values sameness is transitive exactly when no boolean stands beside both the number it equals and a text for either |
| ConfigDiff.EmptyExactlyWhenSame | backend/app/agent/comparison.py:201-206 | A diff is empty exactly when the two are the same key for key |
| ConfigDiff.PatchReaches | backend/app/agent/comparison.py:201-206 | Applying a diff to its base gives the attempt, key for key |
| ConfigDiff.DiffTurns | backend/app/agent/comparison.py:201-206 | The diff from attempt to base is the diff from base to attempt read the other way round, so it tells what each key was |
| ConfigDiff.ChangedExactlyWhenDifferent | backend/app/agent/comparison.py:209-231 | `changed` holds exactly when anything of the launch differs |
| ConfigDiff.StepsReach | backend/app/agent/comparison.py:453-476 | Applying every change against the previous attempt, in order, reaches each attempt, for settings that can be told apart consistently |
| ConfigDiff.StepsReachExactlyWhenTransitive | backend/app/agent/comparison.py:453-476 | With settings drawn from a set of values every sequence of steps reaches every attempt exactly when sameness is transitive on the set |
| ConfigDiff.StepsReachWithoutBooleans | backend/app/agent/comparison.py:453-476 | So they do when no setting is a boolean |
| ConfigDiff.OneStepReaches | backend/app/agent/comparison.py:453-476 | The change against the baseline reaches each attempt, always |
| ConfigDiff.StepsLoseAChange | backend/app/agent/comparison.py:185-206 | Two empty steps that make a change: `1`, `True`, `"true"` |
| ConfigDiff.BuildRows | backend/app/agent/comparison.py:462-476 | The loop compares each attempt with the baseline and with the one before it |
| DatasetPinning.SecureExactlyUnlessBroken | backend/app/control/orchestrator/supervisor.py:483-620 | From a state that is safe and will be, a step leads to another exactly when it is not one of the listed ones: a pin taken while a build is in flight, a replaced build pinned, a forced sample, a finished campaign reopened on an old pin, a plugin's pin of another build |
| DatasetPinning.SecureMeansSafeNextToo | backend/app/datasets/pinning.py:74-93 | That state is exactly: every unfinished pinned campaign is on the current build, now and however the build in flight ends |
| DatasetPinning.UnbrokenIsSafe | backend/app/datasets/pinning.py:96-109 | In any run without such a step every unfinished pinned campaign stays on the current build |
| DatasetPinning.FirstBreakHarms | backend/app/datasets/pinning.py:96-109 | The first such step leaves a campaign off the current build, at once or when the build in flight is published |
| DatasetPinning.WholeStepsAreSafe | backend/app/control/orchestrator/supervisor.py:522-601 | With a request, its build and the pin taken as one step, no unforced run of any length separates a campaign from the current build |
| DatasetPinning.TakenWhileReplaced | backend/app/datasets/pinning.py:96-109 | A run in which the current build is taken while its successor is on the way |
| DatasetPinning.PinnedAfterReplaced | backend/app/control/orchestrator/supervisor.py:569-581 | A run in which each build is published as soon as asked for and a campaign still pins a replaced one |
| DatasetPinning.OneHashExactly | backend/app/datasets/profiles.py:83-93 | Any two results a pinned campaign ranks together with hashes of one length report the same hash exactly when that length is at most the pinned hash's |
| DatasetPinning.ReportedHashIsRead | backend/app/datasets/profiles.py:63-93 | The reported prefix of the pinned hash is the pinned dataset, and another build's is only if the prefixes agree |
| DatasetPinning.DueExactlyAfterTheInterval | backend/app/datasets/refresh.py:36-55 | A sample is due exactly when nothing is in flight and a whole interval has passed since the build and since the last failure |
| Judging.AgreeExactlyOnSoundKinds | backend/app/evaluation/aggregate.py:70-95 | Verdict and slack agree for all values of two kinds exactly when both are numbers, one is missing, or they are a boolean and a text |
| Judging.HeldExactly | backend/app/objective.py:130-169 | A redline is held exactly when it names a metric, has a limit of its own, the metric was measured, and the two stand as the operator says: numbers by size, texts as in a dictionary, anything else only under not equal |
| Judging.SlackIsTheDistance | backend/app/evaluation/aggregate.py:70-95 | The slack is the distance from the limit, negative on the right side, for the four ordered operators and values that read as numbers; infinite otherwise |
| Judging.EveryRedlineJudged | backend/app/evaluation/aggregate.py:98-125 | Every declared redline, the older list being read only when the newer is missing or empty, has its slack, and its breach when it is crossed |
| Judging.FeasibleExactlyWhenInside | backend/app/evaluation/aggregate.py:98-125 | With ordered redlines of such kinds a result is feasible exactly when its target was measured and every slack is on the right side |
| Judging.HeldEqualityHasNoSlack | backend/app/evaluation/aggregate.py:83-95 | An equality that is held makes a feasible result with an infinite slack |
| Judging.EvaluateRedlines | backend/app/objective.py:130-169 | The loop judges each redline as specified, in order |
| Judging.StoredIsLossless | backend/app/evaluation/aggregate.py:43-67 | Storing and reading back slacks is lossless exactly when none is minus infinity or not a number |
| Judging.OneRanking | backend/app/objective.py:109-127 | `is_better` is the strict order of the sort key, and against a baseline that is not zero an improvement is positive exactly when the value is better |
| Rescoring.OnePassIsEnough | backend/app/quality.py:129-162 | After one pass every result a relative redline holds stores its fresh verdict, a second pass changes nothing, and only rows that differed were rewritten |
| Rescoring.Results.Rescore | backend/app/quality.py:129-162 | The loop, judging each row against the table as it then stands, gives that table and returns how many rows differed |
| Rescoring.SameVerdicts | backend/app/quality.py:73-126 | Verdicts depend on measurements alone, never on what is stored |
| Rescoring.ProductionScores | backend/app/quality.py:73-97 | Each metric with a measurement gets the mean of production's measurements, even when it is asked for more than once |
| Rescoring.ResolvedExactly | backend/app/quality.py:100-119 | A redline becomes absolute exactly when it is relative to production, names a metric, and production has a readable number for it; its limit is then production's mean with the offset, rounded |
| Rescoring.FreshAfterwards | backend/app/quality.py:129-162 | After the pass a held result stores the feasibility and breaches it would get once more, a rewritten one its value and slacks too, and its trial repeats them; no other part of a row changes |
| Rescoring.FloorHoldsExactly | backend/app/quality.py:38-49 | A finalist held to a quality floor is feasible exactly when its target was measured and no task dropped too far below production |
| Rescoring.AllResolvedExactlyUnlessHidden | backend/app/quality.py:100-119 | Every declared redline is resolved exactly unless a relative one stands under the old key beside an empty list under the new |
| Rescoring.HiddenIsNeverFeasible | backend/app/quality.py:100-119 | A result hidden so is never feasible |
| Slugs.AlwaysNormal | backend/app/datasets/editor.py:63-68 | Whatever is typed becomes a valid name without dashes at its ends or two hyphens in a row |
| Slugs.FixedExactlyWhenNormal | backend/app/datasets/editor.py:63-68 | A text is its own name exactly when it is in that form |
| Slugs.FindUnusedSlug | backend/app/datasets/editor.py:71-78 | The search returns the base, or the first candidate that is free, or gives up |
| Slugs.GivesUpExactlyWhenAllTaken | backend/app/datasets/editor.py:71-78 | It gives up exactly when the base and all 998 candidates are taken, so never with fewer than 998 names taken |
| Slugs.UnusedIsValidExactly | backend/app/datasets/editor.py:71-82 | What is found is free; for a valid base it is valid exactly when the base has no line feed at its end, is returned as it is, or is cut before the line feed |
| Slugs.DuplicateName | backend/app/api/objectives.py:102-111 | The unbounded search for the name of a copy ends, at the first copy name that is free |
| Lifecycle.EveryRun | backend/app/api/campaigns.py:533-603 | Under every sequence of calls a scheduled campaign has a clock, and each session is asked to finalize and to abort at most once |
| Lifecycle.CallKeeps | backend/app/api/campaigns.py:1014-1050 | Each call keeps that: status, schedule, forced start and stop, managed start, extension and stop, validation, retry, the clock's tick, and the ends of runs and sessions |
| Lifecycle.RunUnasksNothing | backend/app/control/managed.py:303-315 | A finalize or abort request, once made, stands for good |
| Lifecycle.DoneStays | backend/app/api/campaigns.py:1326-1341 | Neither its clock nor its plugin nor a forced stop reopens a finished campaign |
| Lifecycle.PausedStays | backend/app/control/orchestrator/supervisor.py:359-424 | A paused campaign is woken by a person alone |
| LifecycleCalls.StopLeaves | backend/app/api/campaigns.py:1275-1370 | A forced stop that finds a searching session leaves the campaign as it is; any other leaves it done exactly when it was or is one policy night without a clock, else paused, and never held open |
| LifecycleCalls.StopAsks | backend/app/api/campaigns.py:1275-1370 | Only a policy's first live session is asked: to finalize when it searches and was not asked before, else to abort |
| LifecycleCalls.StopEndsSearch | backend/app/api/campaigns.py:1275-1370 | That session comes out of every stop asked to end |
| LifecycleCalls.StopTellsOnce | backend/app/api/campaigns.py:1275-1370 | That a campaign is done is logged exactly by the stop that makes it so |
| LifecycleCalls.CloseLeaves | backend/app/control/managed.py:271-332 | After a managed stop the window is over, every live session was told to abort, and it is done exactly when nothing runs |
| LifecycleCalls.CloseTellsOnce | backend/app/control/managed.py:271-332 | That the window was shut, and that the campaign is done, is logged exactly by the managed stop that makes it so |
| LifecycleCalls.StatusSetExactly | backend/app/api/campaigns.py:533-603 | A person may set a status exactly when it is not draft, done leaves nothing running, scheduled has a clock, and a policy's active has a window |
| LifecycleCalls.TickFollowsClock | backend/app/control/orchestrator/supervisor.py:359-424 | With a clock a campaign is open after a tick exactly inside its window, which it then has; outside it waits, or is done when it was open and has finished; a held one is left alone |
| LifecycleCalls.ScheduleLeaves | backend/app/api/campaigns.py:1014-1050 | A schedule wakes a draft, taking it away pauses what waited, any other status stays |
| LifecycleCalls.ValidationOpens | backend/app/api/campaigns.py:1178-1262 | Validation opens a policy's campaign with a session of its own exactly when none is live |
| Lifecycle.ClosingTwice | backend/app/control/managed.py:271-332 | Stopping a managed campaign again a moment later changes nothing |
| Lifecycle.ToldDoneExactly | backend/app/control/managed.py:271-332 | Whatever ends and in whatever order it asks, a plugin that stops its campaign is told it is done exactly when nothing of it runs any more or the end of a session ended it |
| Lifecycle.DoneMeansOverExactly | backend/app/control/managed.py:271-280 | It is never told too early exactly when the campaign is not open, has no live session, or has one with nothing else running |
| Lifecycle.EndsTooEarly | backend/app/control/orchestrator/policy_session.py:1353-1362 | One session beside a run: its end makes the campaign done while the run goes on, and the plugin is told so |
| Lifecycle.ShutStaysExactly | backend/app/control/orchestrator/supervisor.py:359-424 | The window a stop shut stays shut at the next tick exactly when the campaign is not inside a nightly window |
| Lifecycle.Campaign.StopManaged | backend/app/control/managed.py:271-332 | The new state of a managed stop, field by field, and whether it is done |
| Lifecycle.Campaign.Stop | backend/app/api/campaigns.py:1275-1370 | The new state of a forced stop |
| Lifecycle.Campaign.SetNightly | backend/app/api/campaigns.py:1014-1050 | The new state of a schedule change |

## Left out

- Passing.PassesExactlyWhenPlain: configs with two keys that speak for one name are not characterised beyond SwitchPairs.TrustedExactlyUnlessStolen, and keys are lower case names.
- EngineCommand.ParseEngineArgs: starts from a token list; splitting a string with `shlex`, and a command stored as JSON, are not modelled.
- DockerRun.SplitDockerRun: the walk alone; resolving the model path and the engine from what it found in `parse_launch_command` is not modelled. The `--entrypoint` token is reported as platform managed, not carried.
- Report.Problems: digits of captions are ASCII; Python's `\d` accepts other digits as well.
- ReportCheck.Available: the pictures, tables and prose themselves are not modelled, only which are offered and accepted.
- Admission.EverySchedule: a schedule interleaves critical sections; sleeps, `step_ms` and noise are not modelled.
- ClusterPools.NoCardCountedTwice: node list and readability are fixed; handlers are atomic, and reads of the cluster are given.
- SessionLedger.AllocationSafe: needs 0 not to be an allocated port (the exact condition is SessionLedger.PortsApartExactlyWithoutZero); the config checks and the card count of a config are given answers; an external benchmark has a specification and no method.
- Contenders.LedgerIsLastEffectiveCall: the rows after exploration (serving, validated, failed, skipped) are changed elsewhere; the config check's answer is given; `deviations` of a refreshed row are left as they were, as the code leaves them.
- LogWindow.FilterLog: which lines a pattern matches is given; compiling it and joining lines is not modelled.
- ConfigDiff.StepsReach: `float()` is any function that reads none of `true`, `false`, `none`; NaN, integers beyond what a float holds, and characters whose lower case is not ASCII are not modelled. The metric deltas, series and best attempt of a comparison are not modelled.
- DatasetPinning.SecureExactlyUnlessBroken: one profile; LLMBench's refusals and outages leave the state as it is and are not steps; a campaign whose profile does not exist is not modelled.
- Judging.FeasibleExactlyWhenInside: metrics and limits are reals; texts that read as infinity or NaN are not modelled.
- Rescoring.OnePassIsEnough: rounding to six digits and the texts of breaches are arbitrary functions; a relative redline whose offset `float()` refuses raises in the code and is not modelled; which candidates are production's, and readers that raise while judging, are given.
- Slugs.AlwaysNormal: starts from the text after `str.lower()`.
- Lifecycle.EveryRun: one campaign; the worker's own ending of a campaign whose search is exhausted, its runs' states, leases and machines are not modelled; the supervisor's drain (backend/app/control/orchestrator/supervisor.py:703-710), the abort endpoint (backend/app/api/policies.py:339) and `_begin_finalizing` also write finalize and abort times and are no steps of the model; `create_managed_campaign` with a start is creation followed by a hold.
- Card counts per config, search strategies, recipes, the launch drivers' other commands, and the state machines of runs and policy sessions: calls into code whose answers are parameters here.
- HTTP routing, authentication, validation of request bodies, database sessions and migrations: handlers are atomic steps over explicit rows.
- Floating point rounding: metrics and scores are reals.
- Kubernetes, ssh, LLMBench and VictoriaLogs clients, credentials, the frontend and the Go operator.
