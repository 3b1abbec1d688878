# Fabric network builder: a verified model

The builder generates a Hyperledger Fabric network, brings it up, installs
chaincode on it and renews its certificates. This project models four parts of
it and proves what they promise. Everything is proved by the Dafny verifier;
nothing here was executed.

`dafny verify dfyconfig.toml` checks the project.

**The admin client** (`Fabric`, `Lifecycle`,
`LifecycleCases`, `Channels`, `Deliver`, `Retries`, `Admin`).
The network is a value: an ordered ledger of approvals and commits, each peer's
copy of it (a prefix that only grows), the packages that each peer holds, and
which node has joined the channel with which block. An *attempt* is one call of
a function that the client hands to `retry`; it may fail with no effect, take
effect although the reply is lost, or succeed. The class `Admin.Network` follows
the source's methods call by call, and each of them promises which steps its
trace of attempts makes, in which order, that the calls it made are those of the
trace and no others, and where an error ends it: a step that
could not start with the project's files, or one that failed as often as it may be
tried, or once under a cancelled context. The theorems are about every such trace, so they hold under
every pattern of failures, lost replies and lag, and over any number of failed
and successful runs. The ledger's own guard, that a definition commits only at
the committed sequence plus one, is assumed; a peer or a ledger that is stricter
is a call that fails. One installer works at a time.

**The command line** (`Args`, `ArgsLaws`, `ArgsRoundTrip`). `readOptions` is a
cursor over an array of tokens that it rewrites in place. It is proved equal to
a specification in two phases: the tokens are read as uses of options and
positionals, and the uses are folded into the values. The laws of the language
are theorems about that specification.

**Certificate renewal** (`Order`, `Certs`, `Renewals`, `Reissue`, `Expiries`).
The file system is a map from paths to contents, a certificate is the record of
its fields. The class `Reissue.CryptoConfig` discovers the leaves, finds their
CAs and rewrites certificates next to backups; `Renewals` says what any number
of such runs keeps.

**The generated network** (`Decimal`, `Strings`, `Policies`, `Topology`,
`Names`, `Variables`). Ports are read from the decimal text that the compose
files contain, policies have a meaning over sets of signers, and `variables.sh`
is read back as it was written.

## Findings

The proofs needed these facts about the code. For each a theorem says, for every
case, when the code does what is expected; where a lemma gives a concrete case
of the opposite, it is named too.

- `approve` skips an org that readiness says has approved, and readiness does
  not look at the package. After a package is built again under the same version
  a run can end with no error, every peer has the new package, and the org keeps
  the old one (`LifecycleCases.RebuiltPackageIsNotApproved`). Of copies of the
  ledger that are up to date, a run leaves its package in force exactly if the
  org had not approved the definition before, or had approved it with that
  package (`Lifecycle.PackageApproved`, `Lifecycle.ApproveLeaves`). The comment
  at `internal/admin/install.go:244` says that the definition names the
  installed package; an approval that is skipped does not.
- `commit` compares only the sequence. A run can read the sequence from a peer
  that lags, find its number committed, and end with no error on another
  definition (`LifecycleCases.StaleReadFoolsInstall`). That run needs a ledger that
  still orders an approval at a sequence that is already committed, and a peer that
  answers a readiness query there: of the ledger's rules only the one for commits is
  assumed, and a stricter one turns the run into an error. The answer of `commit` is right
  exactly if the number was the next one of the ledger, which means that the
  read was up to date, or if the very definition was committed already
  (`Lifecycle.ShortcutIsSound`, `Lifecycle.ReadIsNext`).
- A lost reply to the channel creation transaction loses the anchor peer updates
  (`Channels.LostReplyLosesAnchors`). A run changes the anchors only if its own
  transaction was acknowledged, so never on a network that has the channel
  (`Channels.NoAcknowledgementNoAnchors`); on nil all orgs' anchors are set
  exactly if it was, or they were set before
  (`Admin.Network.CreateSystemChannel`).
- A node that is a member keeps its block, whichever that is. On nil all nodes
  hold the run's block exactly if none of them held another
  (`Channels.BlocksAfter`, `Channels.SameBlock`).
- `--days` above 106751 wraps an int64. At 106752 every renewal is dated in the
  past (`Certs.OneMoreDayIsPast`, `Certs.ExpiryIsAsked`).
- `BackupPath` asks for a name until it is told that one does not exist, and a name
  that is too long for the file system is never one of those. Where no name fits,
  the loop never ends: with no backup yet exactly if the certificate's file name
  and `.bak` are too long together, with one exactly if the name and a time stamp
  and `.bak` are, unless that was used this second (`Certs.SearchEndsIff`).
- With `nchoose2common`, different vanity names can give two collections one
  name (`Policies.VanityNamesCollide`). The names all differ exactly if no two
  pairs are the same or one pair cut at another underscore
  (`Policies.CommonNamesDifferIff`).
- From the 971st chaincode service on, a service can get a node's port; for one
  network it depends on whether it has more than three orderers or peers
  (`Topology.ChaincodePortsClear`, `Topology.ChaincodePortsClearOf`).

## Model

| member | source | states |
|---|---|---|
| Fabric.AttemptKeeps | internal/admin/install.go:169-336 | Every attempt of every step keeps the ledger valid and every peer's copy a prefix of it, and no node loses anything it holds. |
| Fabric.ChainKeeps | internal/admin/install.go:110-160 | The same over every run. |
| Fabric.LaggingView | internal/admin/install.go:200-224 | A peer that lags never shows a later sequence than the ledger has, and at the same sequence it shows the same definition. |
| Fabric.ApprovalStays | internal/admin/install.go:234-242 | An approval that readiness reports is in the ledger and stays there. |
| Lifecycle.CommitEffect | internal/admin/install.go:291-316 | A run that commits only one definition leaves its name as it was or has committed exactly that definition as the next sequence; other names are untouched. |
| Lifecycle.SegmentRaises | internal/admin/install.go:119-157 | Whatever happens, one pass over a name raises its committed sequence by one to its own definition, or not at all. |
| Lifecycle.ShortcutIsSound | internal/admin/install.go:291-316 | When commit answers, also with "already committed", the ledger's definition is the one to commit exactly if the run's number was the next of the ledger or the definition was committed already; only then can a lost reply not cause a second one. |
| Lifecycle.ReadIsNext | internal/admin/install.go:200-224 | The number is the next one exactly if the peer was up to date about the name when it was read. |
| LifecycleCases.StaleReadFoolsInstall | internal/admin/install.go:110-160 | A whole finished run that ends with no error on a definition that is not its own. |
| Lifecycle.InstalledBeforeApproval | internal/admin/install.go:127-147 | No org is asked to approve before every peer holds the package. |
| Lifecycle.ApprovedBeforeCommit | internal/admin/install.go:145-153 | No commit is sent before the ledger has every org's approval of its definition; that approval is in force exactly if it was before the run or one of this run took effect. |
| Lifecycle.ApprovalInForce | internal/admin/install.go:244-269 | The approval of an org in force after a run is this run's, with its package, if one of them took effect, else the one from before. |
| Lifecycle.ReadyFromThenOn | internal/admin/install.go:271-289 | Once an up-to-date peer has answered that all orgs have approved, their approvals of the definition stay in force to the end. |
| Lifecycle.ReadyBeforeCommit | internal/admin/install.go:148-153 | No commit is sent before each org's first peer answered that all orgs have approved. |
| Lifecycle.LostApprovalIsNotRepeated | internal/admin/install.go:244-248 | An approval that took effect although the call failed is not sent again by an attempt whose query is answered by a copy of the ledger that has it. |
| Lifecycle.LostCommitIsNotRepeated | internal/admin/install.go:291-293 | The same for a commit. |
| Lifecycle.SegmentDone | internal/admin/install.go:119-157 | After a finished pass every peer holds the package and every org has approved the definition; which approval is in force; and the ledger has committed exactly the definition, shown by each org's first peer, exactly if the pass had the right number. |
| Lifecycle.PackageApproved | internal/admin/install.go:244-269 | With up-to-date answers, after a finished pass this run's package is the one in force exactly if the org had not approved the definition before, or with this package. |
| Lifecycle.ApproveLeaves | internal/admin/install.go:255-268 | What approve leaves in force when it succeeds: this package, unless the peer answered that the org has approved; then what was in force before. |
| Lifecycle.ApproveKeepsOldPackage | internal/admin/install.go:255-268 | Answered by an up-to-date copy, approve leaves this package in force exactly if the org had not approved the definition, or with it. |
| LifecycleCases.RebuiltPackageIsNotApproved | internal/admin/install.go:110-160 | A whole finished run after which the org's approval in force names an older package. |
| Lifecycle.SequenceRises | internal/admin/install.go:130-153 | Over every history of failed and successful runs a name's sequence rises by at most its number of passes, and by exactly that when they all finish on up-to-date reads. |
| Lifecycle.ReadWasNext | internal/admin/install.go:203-224 | A finished pass raises the sequence by one exactly if its number was the next. |
| Lifecycle.Resumption | internal/admin/install.go:106-109 | Of two successive passes for a name with up-to-date reads, and any passes for other names between them, the second has the same number exactly if the first one's commit did not take effect. |
| Lifecycle.OtherNames | internal/admin/install.go:119-157 | Passes for other names leave a name's committed definition and its approvals in force as they are. |
| Lifecycle.DefinedStays | internal/admin/install.go:119-157 | What a finished pass promises outlives passes for other names. |
| Lifecycle.InstallSafety | internal/admin/install.go:106-160 | Over any number of runs, the last finished pass of a name is what the network holds at the end: packages, approvals in force, and its definition exactly if it had the right number. |
| Lifecycle.HistoryAdds | internal/admin/install.go:119-157 | Over any number of runs every transaction added is of the definition of one of the passes, and every package that a peer gets is one of theirs. |
| Admin.Network.HasPackage | internal/admin/install.go:97-104 | A package counts as installed exactly if its ID is in the list. |
| Admin.Network.InstallOnce | internal/admin/install.go:175-197 | One attempt installs exactly when the peer answered that it lacks the package, and succeeds only if the peer has it; it makes that query and, if it sends, that call, and no other. |
| Admin.Network.ReadOnce | internal/admin/install.go:209-222 | One attempt reads the committed sequence plus one, or one. |
| Admin.Network.ApproveOnce | internal/admin/install.go:255-268 | One attempt approves exactly unless readiness answered that the org has approved the definition; it approves also when readiness fails; it makes that query and, if it sends, that call, and no other. |
| Admin.Network.AllApproved | internal/admin/install.go:281-285 | The check over the approvals holds exactly if all orgs have approved. |
| Admin.Network.ReadyOnce | internal/admin/install.go:276-288 | One attempt succeeds exactly if the peer answers and shows every org's approval. |
| Admin.Network.CommitOnce | internal/admin/install.go:299-315 | One attempt commits exactly unless the peer answered with the sequence as committed; it makes that query and, if it sends, that call, and no other. |
| Admin.Network.CommittedOnce | internal/admin/install.go:323-335 | One attempt succeeds exactly if the peer answers and shows this version and sequence. |
| Admin.Network.Retry | internal/admin/admin.go:65-84 | The step runs up to its first success or Retries times, nil means that one attempt succeeded, and only a cancelled context ends it earlier, after one attempt at least; one that was cancelled before allows one attempt only. |
| Admin.Network.DialPeer | internal/admin/admin.go:147-200 | A connection is made once and kept, and it fails exactly if the project lacks what it needs. |
| Admin.Network.Close | internal/admin/admin.go:165-171 | No connection is kept after Close. |
| Admin.Network.ForEachPeer | internal/admin/admin.go:202-212 | The step is made on every peer, org by org and in the order of the peers, each retried, up to the first that fails. |
| Admin.Network.ForEachOrg | internal/admin/admin.go:214-222 | The same on the first peer of every org, in order. |
| Retries.TurnsMake | internal/admin/admin.go:202-222 | A run of steps in turn makes no other step, and without an error each of them succeeded. |
| Retries.TurnsOrderly | internal/admin/admin.go:65-84 | A step that failed is followed by itself or by nothing. |
| Retries.TurnsBudget | internal/admin/admin.go:65-84 | A run of k steps makes at most Retries * k attempts. |
| Retries.TurnsConcat | internal/admin/install.go:127-157 | Runs in turn put together are a run of the joined steps, with the error of the second. |
| Retries.ErrorHasCause | internal/admin/admin.go:65-84 | A run that returns an error ended at a step whose predecessors all succeeded, and that step could not start, or its last Retries attempts failed, or its last one did and the context is cancelled. |
| Admin.Network.InstallChaincode | internal/admin/install.go:119-157 | One pass makes the steps of the six phases in turn, org by org within a phase, up to the first that fails; nil exactly if none does; each phase is complete before the next starts. |
| Admin.Network.Install | internal/admin/install.go:106-160 | The run is a history of passes over the names, each its steps in turn; nil exactly if every name is finished, and else a pass ended at a step, a package file is missing, or the collections or the policy cannot be read; the network holds what each name's last finished pass promised; every transaction that it adds has one of the names, the version, the policy, collections.json and the init flag as given, and an approval and every new package are of the name's file; at most Retries * names * (orgs * peers + 3 * orgs + 2) attempts. |
| Admin.Network.JoinOrdererOnce | internal/admin/channel.go:129-143 | One attempt posts the block exactly to an orderer that answered that it is not active; it makes that query and, if it sends, that call, and no other. |
| Admin.Network.JoinPeerOnce | internal/admin/channel.go:177-193 | One attempt joins exactly a peer that answered without the channel; it makes that query and, if it sends, that call, and no other. |
| Admin.Network.CreateChannel | internal/admin/channel.go:113-152 | With the block's file the orderers' joins are made in turn, up to the first that fails, and without it nothing is; on nil every orderer is a member, with the channel's genesis block or the block that it had. |
| Admin.Network.JoinPeers | internal/admin/channel.go:154-195 | The same for the peers, if the file is a block. |
| Admin.Network.UpChannel | internal/cli/cli.go:356-366 | up makes the joins of the orderers and then of the peers in turn, up to the first that fails; on nil all are members, each with the genesis block or the block that it had. |
| Admin.Network.Up | internal/cli/cli.go:329-380 | With channel-artifacts/<channel>.block the orderers' and the peers' joins in turn; without it, but with genesis.block and channel.tx, the steps of a system channel; otherwise an error and no attempt; and what each leaves. |
| Channels.BlocksAfter | internal/admin/channel.go:116-195 | After every run each member has the block that it had before, or this run's. |
| Channels.OneBlock | internal/admin/channel.go:116-195 | A run that joins with one block never leaves two blocks. |
| Channels.JoinsOnce | internal/admin/channel.go:51-78 | Over every run each node goes from outside to inside at most once. |
| Channels.PeerJoinIsNotRepeated | internal/admin/channel.go:177-193 | After a peer's join took effect, no later attempt sends it another. |
| Channels.OrdererJoinIsNotRepeated | internal/admin/channel.go:128-143 | After an orderer's join took effect, a later attempt sends another only while the orderer is not active, and it takes no effect. |
| Channels.NothingToJoin | internal/admin/channel.go:128-137 | On a network whose nodes are all members no join is sent. |
| Channels.AllJoined | internal/admin/channel.go:116-195 | A node whose step succeeded is a member, with this run's block or the one it had. |
| Channels.SameBlock | internal/admin/channel.go:116-152 | All orderers then hold the run's block exactly if none of them held another. |
| Channels.SameBlockOfPeers | internal/admin/channel.go:154-195 | The same for the peers. |
| Channels.OrderersFirst | internal/cli/cli.go:356-364 | No peer joins before every orderer is a member. |
| Deliver.GenesisBlock | internal/admin/systemchannel.go:174-196 | A block is returned exactly when one precedes the first status or the end and that is SUCCESS or EOF, and it is the last such block; errNoChannel comes exactly on NOT_FOUND, or SERVICE_UNAVAILABLE without waiting. |
| Admin.Network.CreateOnce | internal/admin/systemchannel.go:211-229 | One attempt reads and sends channel.tx only when the orderer answers that it has no such channel and the file is a config update; the channel is made from that file. |
| Admin.Network.FindChannel | internal/admin/systemchannel.go:202-241 | The creation and then the fetch, in turn, if the first org's admin can connect, and else nothing; created holds exactly if this run's channel.tx was acknowledged. |
| Admin.Network.CreateSystemChannel | internal/admin/systemchannel.go:198-257 | Create or find, fetch, join every peer, and after an acknowledgement update the anchors, in turn up to the first step that fails; on nil all orgs' anchor peers are set exactly if this run's transaction was acknowledged or they were set before; without an acknowledgement, or when the channel was there, the anchors stay as they were. |
| Admin.Network.UpdateAnchorPeers | internal/admin/systemchannel.go:259-276 | One org's Org<i>MSPanchors.tx is sent and retried, if its admin can connect and the file is an update; otherwise nothing. |
| Admin.Network.UpdateAllAnchors | internal/admin/systemchannel.go:252-256 | After all joins the updates of the orgs in turn, up to the first that fails; on nil all are in effect. |
| Channels.PeersGetTheFetchedBlock | internal/admin/systemchannel.go:233-248 | Peers are sent only the block that the ordering service has. |
| Channels.NoAcknowledgementNoAnchors | internal/admin/systemchannel.go:249-256 | A run whose transaction was not acknowledged, and every run on a network that has the channel, leaves the anchors as they were. |
| Channels.SystemJoined | internal/admin/systemchannel.go:246-248 | When every join succeeded, each peer has the fetched block or the block that it had. |
| Channels.AnchorsLast | internal/admin/systemchannel.go:246-257 | An anchor update goes out only in a run that made the channel itself, and only when every peer is a member. |
| Channels.LostReplyLosesAnchors | internal/admin/systemchannel.go:210-251 | A run that makes the channel, joins every peer and sends no anchor update. |
| Args.LookupIff | internal/cli/args.go:120-153 | lookup succeeds exactly on an exact name or on a long prefix of one option only, and then finds that option. |
| Args.LookupOption | internal/cli/args.go:122-153 | The two loops of lookup compute it. |
| Args.ValueMaps.Keep | internal/cli/args.go:244-260 | What storing an option's values does to the four maps, and when it fails. |
| Args.ValueMaps.ReadOption | internal/cli/args.go:197-260 | One option at the cursor: the tokens it takes, the bundle it splits, its error, and progress in tokens or in the length of the token. |
| Args.ValueMaps.ReadOptions | internal/cli/args.go:172-263 | For every token array the loop ends with the positionals or the error, and the maps, of the two-phase specification; the caller's slice is unchanged. |
| Args.ParseLine | internal/cli/args.go:273-313 | Both parser levels and the positionals compute the specified result. |
| ArgsLaws.ScanSplits | internal/cli/args.go:175-263 | What precedes an option is read as it would be alone. |
| ArgsLaws.SameHead | internal/cli/args.go:175-263 | Tokens that start the same scan may stand for each other after anything open. |
| ArgsLaws.BundleMeansTwoTokens | internal/cli/args.go:203-218 | -f with a rest means the two tokens -f and -rest, for all surrounding tokens. |
| ArgsLaws.AbbreviationMeansTheName | internal/cli/args.go:16-17 | A long name may be cut to a prefix that extends to its option only, for all surrounding tokens. |
| ArgsLaws.SeparateMeansAttached | internal/cli/args.go:234-238 | For every option with one value, `--name word` reads as `--name=word`, wherever an option may stand. |
| ArgsLaws.ShortMeansAttached | internal/cli/args.go:234-238 | And `-n word` as `-nword`. |
| ArgsLaws.MissingValue | internal/cli/args.go:227-243 | An option that needs a value and is followed by nothing or by an option is the error that its first name expects one, or at least one. |
| ArgsLaws.BadInteger | internal/cli/args.go:250-254 | A value of an integer option that is no integer is that option's error. |
| ArgsLaws.FlagTakesNone | internal/cli/args.go:218-220 | A flag with `=value` is that flag's error. |
| Decimal.AtoiIff | internal/cli/args.go:250-254 | An integer is a sign or none and digits, in the range of 64 bits, and nothing else is one. |
| ArgsLaws.NumbersAreWords | internal/cli/args.go:155-162 | A number, also a negative or decimal one, is a value and not an option. |
| ArgsLaws.OptionIff | internal/cli/args.go:155-162 | A token is an option exactly if it is a dash and more, and neither a negative integer nor a negative decimal. |
| ArgsLaws.BundlesMayBeSplitFirst | internal/cli/args.go:176-218 | Splitting every bundle before the scan changes nothing. |
| ArgsRoundTrip.LineIsReadBack | internal/cli/args.go:175-263 | The line of any uses and positionals of a command is read back as exactly those. |
| ArgsRoundTrip.GlobalsAreReadBack | internal/cli/args.go:175-187 | The global line is read back and stops with the rest untouched. |
| ArgsRoundTrip.CommandLineIsReadBack | internal/cli/args.go:273-313 | Both levels of a line are read back as the invocation it was written for. |
| ArgsRoundTrip.AssignmentIsReadBack | internal/cli/args.go:13-25 | Every assignment to the global options and a command's, with every list of positionals, is parsed back to exactly itself, whichever single values are written as `--opt value` and whichever as `--opt=value`; two options may share a dest if they are opposite flags, of which one at most is given. |
| ArgsRoundTrip.FlagPairIsReadBack | internal/cli/args.go:203-222 | The dest of a flag and its opposite comes back true, false or absent as the one, the other or none was given. |
| ArgsRoundTrip.GenerateFlags | internal/cli/spec.go:31-43 | The paired flags of generate are such a table, for every assignment that does not give a flag and its opposite. |
| ArgsRoundTrip.StoreAll | internal/cli/args.go:244-260 | The values after all the uses of an assignment say that assignment, and nothing of any other dest. |
| ArgsRoundTrip.LastUseWins | internal/cli/args.go:244-254 | The value of a flag, a string and an integer is that of its last use. |
| ArgsRoundTrip.LastListWins | internal/cli/args.go:255-260 | A list is its last use, and an append option keeps every use in order. |
| Order.Sort | internal/certs/reissue.go:95-104 | The slice is in order, has the same elements, and elements that are not told apart keep their order. |
| Order.StrLessIff | internal/certs/reissue.go:95-104 | One string comes before another exactly if they differ first where it ends or has the smaller character. |
| Certs.LeafIff | internal/certs/certs.go:160-230 | The leaves, by their paths: tls/server.crt and the first msp/signcerts/*.pem of each node under peers, orderers and users, with the org's tlsca and ca directory. |
| Certs.InDirIff | internal/certs/certs.go:253-290 | The files in which a CA and its key are searched for. |
| Certs.ResolvesOnce | internal/certs/certs.go:249-297 | A leaf has at most one issuing CA in a directory, and is not refused if it has one. |
| Certs.DaysFit | internal/certs/reissue.go:157-157 | The days' nanoseconds fit an int64 exactly up to 106751 days. |
| Certs.ExpiryIsAsked | internal/certs/reissue.go:153-162 | The new expiry is the earlier of now plus the days and the CA's, exactly if the days fit or both the true and the wrapped date reach the CA's expiry. |
| Certs.ExpiryIsLater | internal/certs/reissue.go:149-162 | With days that fit, or none, and a CA that has not expired, the new expiry lies after now. |
| Certs.RenewalDates | internal/certs/reissue.go:149-162 | With days that fit, a renewal runs from the later of the clock less 300 seconds and the CA's start to the earlier of now plus the days of 86400 seconds and the CA's end; without days to the CA's end. |
| Certs.OneMoreDayIsPast | internal/certs/reissue.go:157-157 | At 106752 days the new expiry lies before now, for every CA. |
| Certs.WindowInsideCA | internal/certs/certs.go:329-340 | The new validity is inside the CA's (section 4.1.2.5 of RFC 5280), and not empty unless the clock passed the new expiry by more than the skew. |
| Certs.RenewalVerifies | internal/certs/certs.go:299-351 | A renewal carries the CA's name and signature, with SHA-256 for every key but Ed25519, and starts while the CA is valid, exactly if the CA is valid by the clock less the skew. |
| Certs.BackupNamesDiffer | internal/certs/certs.go:353-368 | The candidate names of a backup are all different. |
| Certs.SomeNameIsFree | internal/certs/certs.go:361-367 | If the first k candidates exist there are at least k files, so some candidate is free. |
| Renewals.LeavesStay | internal/certs/certs.go:168-232 | Backups are in no glob: Discover finds the same leaves before and after. |
| Renewals.IssuersStay | internal/certs/certs.go:253-297 | The CAs, and with them what is refused, are the same before and after. |
| Renewals.WrittenRenews | internal/certs/reissue.go:174-194 | Writing one leaf, its old content saved first, is a step that keeps identities, backups and all other files. |
| Renewals.EvolvesTransitive | internal/certs/reissue.go:174-194 | What one run keeps, two runs keep. |
| Renewals.RunsKeep | internal/certs/reissue.go:45-196 | Over any number of runs with backups a leaf keeps subject, issuer, key and extensions; everything it ever held is there or in a backup; the first certificate is in its .bak if that was free; all other files and the set of leaves are unchanged. |
| Reissue.CryptoConfig.ResolveCA | internal/certs/certs.go:249-297 | The CA is the first certificate by path whose subject is the leaf's issuer, and its key is there; it is refused exactly if no certificate matches or the one that does has no key. |
| Certs.SearchEndsIff | internal/certs/certs.go:353-369 | Exactly when the search for a name ends on a file system with a longest name: some candidate that fits is free; with no backup yet, .bak fits; with one but none of this second, the time stamp fits; and always with room for the number of files. |
| Reissue.CryptoConfig.BackupPath | internal/certs/certs.go:353-369 | The path is the first candidate that does not exist, .bak if that is one, and there is none exactly if the loop never ends. |
| Reissue.CryptoConfig.Discover | internal/certs/certs.go:190-232 | One leaf for each node and kind that has a certificate, the first by path, in the order of parent, node directory and kind; an error exactly if one of them does not parse. |
| Reissue.CryptoConfig.NodeMatches | internal/certs/reissue.go:33-40 | A node matches exactly if a pattern is its name or its name up to a dot. |
| Reissue.CryptoConfig.UnmatchedNodes | internal/certs/reissue.go:71-87 | Exactly the patterns that match no leaf. |
| Reissue.CryptoConfig.Select | internal/certs/reissue.go:89-124 | The targets are exactly the selected leaves, each once. |
| Reissue.CryptoConfig.ReissueOne | internal/certs/reissue.go:143-196 | A leaf is refused exactly if it has no CA or key here or the CA has expired, and then nothing is written; a renewal is the leaf dated and signed again by that CA, after its backup. |
| Reissue.CryptoConfig.ReissueAll | internal/certs/reissue.go:124-140 | Refused leaves do not stop later ones, another error does; nil means that every target was reissued; every new file is the backup of a target that was not refused, with its old content, and there is none with --no-backup; the run hangs only at a target whose name leaves no room. |
| Reissue.CryptoConfig.Reissue | internal/certs/reissue.go:42-141 | A bad option, a leaf that does not parse or a mistyped node is the error of the first check that fails, and writes nothing; otherwise nil exactly if every selected leaf was reissued; with --type tls only tls/server.crt files change, with signcert only files of msp/signcerts, and with --all every leaf of the type is a target; no other file changes, and every new file is a target's backup; after nil with all-expired a second run at the same time selects nothing. |
| Reissue.RenewalIdentity | internal/certs/certs.go:314-351 | A renewal has the leaf's subject, issuer, key and extensions, has not expired when the days fit, and without days expires with its CA. |
| Reissue.NothingExpired | internal/certs/reissue.go:90-95 | After a complete run over all expired leaves none is left to select. |
| Reissue.ShortNameMatches | internal/certs/reissue.go:23-25 | The short name peerK matches peer j of any org exactly if j is K. |
| Expiries.ListExpiries | internal/certs/certs.go:43-104 | A path is listed exactly if no identical certificate has fewer components, with its own expiry, in the strict order of expiry and path. |
| Expiries.EachIsListed | internal/certs/certs.go:45-47 | Every distinct certificate is listed at least once. |
| Expiries.LeafIsListed | internal/certs/certs.go:43-47 | Every leaf of the tree is listed, or an identical copy of it with no more components. |
| Expiries.WalkedIff | internal/certs/certs.go:54-60 | The files that are listed are those under the root whose names end in .pem or .crt. |
| Policies.PairsAre | internal/topology/topology.go:198-213 | The nested loops yield each pair i < j exactly once, in lexicographic order, n(n-1)/2 of them. |
| Policies.Choose2Means | internal/topology/topology.go:205-213 | With nchoose2 a set of signers satisfies the endorsement policy exactly if it has both orgs of some collection. |
| Policies.CommonMeans | internal/topology/topology.go:190-204 | With nchoose2common exactly if it has Org1, or both other orgs of some collection. |
| Policies.SharedMeans | internal/topology/topology.go:214-216 | By default exactly if it has any org of the network. |
| Topology.MemberIsMsp | internal/topology/topology.go:179-185 | A policy names an org by the MSP ID that its peers have. |
| Policies.StructureIs | internal/topology/topology.go:186-217 | Which texts are nchoose2, nchoose2common with which vanity names, and neither. |
| Policies.CollectionMeans | internal/topology/topology.go:198-213 | A collection's policy is satisfied exactly by any one of its orgs. |
| Policies.Choose2NamesDiffer | internal/topology/topology.go:209-213 | The collections of nchoose2 have different names. |
| Policies.JoinedIff | internal/topology/topology.go:200-202 | Two pairs of names joined by an underscore are equal exactly if the pairs are, or one is the other cut at another underscore. |
| Policies.CommonNamesIff | internal/topology/topology.go:198-204 | Two collections of nchoose2common have one name exactly if their pairs of vanity names clash so. |
| Policies.CommonNamesDifferIff | internal/topology/topology.go:198-204 | All of them have different names exactly if no two pairs clash. |
| Policies.CommonNamesDiffer | internal/topology/topology.go:198-204 | They do if the vanity names differ and have no underscore. |
| Policies.VanityNamesCollide | internal/topology/topology.go:200-202 | Different vanity names for which two collections have one name. |
| Policies.MajoritiesMeet | internal/topology/topology.go:162-165 | Any two sets of k peers share a peer exactly if k is at least the majority. |
| Topology.OrgsKeepPorts | internal/topology/topology.go:149-158 | Adding orgs keeps the earlier port allocation as a prefix. |
| Topology.PeerHasSlot | internal/topology/topology.go:149-158 | Peer j of org i has port prefix 70 + 10((i-1) * peers + j). |
| Topology.PeersMovePorts | internal/topology/topology.go:149-158 | Adding peers moves the ports of every org but the first. |
| Topology.PublishedPorts | internal/render/templates/base/docker-compose-base.yaml.tmpl:59-81 | The ports published on the host are those of the computed network's orderers and orgs, and 51 and 53 after each peer's prefix. |
| Topology.PortsDiffer | internal/render/templates/base/docker-compose-base.yaml.tmpl:59-81 | For all counts no two published ports of orderers, CAs and peers are the same number. |
| Topology.PortsFitIff | internal/topology/topology.go:134-158 | They all fit 65535 exactly if orderers, orgs and total peers are at most 59 each. |
| Topology.ChaincodePortsClear | internal/cli/cli.go:567-577 | n chaincode services are clear of every network's ports exactly for n up to 970. |
| Topology.ChaincodePortsClearOf | internal/cli/cli.go:567-577 | They are clear of one network's exactly if n is at most 970 or it has at most three orderers, and n is at most 971 or it has at most three peers. |
| Topology.DefaultCountsFit | internal/topology/topology.go:170-178 | By default a collection requires no more peers than it allows, allows all but one, and requires less than a majority. |
| Topology.Network.AddPeerPorts | internal/topology/topology.go:149-158 | The running prefix gives every peer the port of its slot. |
| Topology.Network.AddCollections | internal/topology/topology.go:198-213 | The loops append the collection of each pair, in order. |
| Topology.Network.ComputePolicies | internal/topology/topology.go:169-219 | On the text of --private-structure: who can endorse, and each collection's name, orgs and peer counts; a vanity list of the wrong length is refused, and nothing else. |
| Topology.New | internal/topology/topology.go:113-167 | Which options are refused and why; otherwise all nodes and ports, for nchoose2, nchoose2common with its vanity names and any other text the policy and the collections, and a majority for -1. |
| Names.ParsePeerIff | internal/admin/invoke.go:19-33 | ParsePeer inverts the host name exactly for a domain that is one line and not empty. |
| Names.ParsePeerReads | internal/admin/invoke.go:19-33 | ParsePeer reads exactly peer<j>.org<i> with nothing after it or a domain, with any digits, and gives their numbers. |
| Names.PeerNameInjective | internal/network/vars.go:97-98 | Different peers have different host names, in every domain. |
| Variables.ReadVars | internal/network/vars.go:32-89 | The scan computes the specified values, or the first error. |
| Variables.LineMeans | internal/network/vars.go:27-68 | A line, trimmed, is a scalar in quotes, an array in parentheses, or passed over; an array's first word that is no integer is the error. |
| Variables.TrimMeans | internal/network/vars.go:43-43 | Trimming takes the white space off both ends and nothing else. |
| Variables.FieldsSplit | internal/network/vars.go:55-61 | White space separates an array's words wherever it stands. |
| Variables.MissingSetting | internal/network/vars.go:74-88 | A file with no line for the domain, the policy, the orgs or the peers is refused; with none for the orderers there is one. |
| Variables.JoinInts | internal/render/render.go:80-94 | The template's join of integers. |
| Variables.RenderVariables | internal/render/templates/scripts/variables.sh.tmpl:1-7 | The text of variables.sh for a network. |
| Variables.VariablesRoundTrip | internal/network/vars.go:34-89 | ReadVars gives back the values exactly if the domain is one line and not empty and every line fits the scanner's buffer. |
| Variables.OldFileIsRead | internal/network/vars.go:74-78 | A file without ORDERER_INDICES is read as that of a network with the one orderer 0. |
| Variables.NetworkIsReadBack | internal/render/render.go:124-168 | The same for every network that New computes: its domain, policy and index lists come back. |

## Left out

- Lifecycle.PackageApproved: is about runs whose readiness queries were answered by copies that are up to date; Lifecycle.ApproveLeaves and Lifecycle.ApprovalInForce say what is in force without that.
- Admin.Network.Install: with a name that occurs twice, the promise is about its last occurrence.
- Reissue.CryptoConfig.BackupPath: Stat fails because a name is too long or does not exist; another failure, as of the disk, keeps the source's loop going and is not modelled. A character of a name stands for one byte.
- Reissue.CryptoConfig.Discover: a name with a glob character is a plain name.
- Expiries.ListExpiries: an expiry is a number of seconds, which sorts as its text does for four-digit years; two encodings of one certificate count as identical files.
- Variables.ReadVars: a character stands for one byte, which is exact for ASCII text; the regular expressions are written out as functions.
- TLS, gRPC, HTTP and protobuf calls have an unknown outcome; a reply that arrives is right. Whether a file decodes, an update can be signed or a connection can be made is a property of the project's files, which do not change during a run.
- Which orgs' approvals the ledger needs for a commit: a ledger that needs some and lacks them is a call that fails.
- One channel: the channel name is not part of a definition, and the digest of a package is taken to be injective.
- x509 encoding: a new certificate is the record of the given fields, and an authority key identifier that the encoder would add to a certificate without one is not modelled.
- File writes are atomic, nothing else changes the tree during or between runs, and directories exist through their files.
- ReadVars of a project that another tool wrote, beyond the lines of the template, is modelled but has no round trip.
- Usage, help and listing texts, prompts, chown, delays and the order of candidates in a message.
- The other templates, collections.json as text, Ansible variables, archives, chaincode packages, Docker and compose.
- Invoke and its arguments, image overrides and the file plumbing of the commands.
- The policies as Fabric parses them: their meaning here is that of the usual n-out-of rules.
