# Verified model of the raven controller manager

The controller manager of raven keeps a webhook reachable over TLS and elects, for every gateway, the endpoint that
carries its VPN tunnel. This project models its four stateful parts and proves what they promise:

1. **The atomic directory writer** (`PathCleaning`, `Disk`, `FileSystem`, `AtomicWriter`, `Publication`, `WriterRuns`,
   `WriterWitnesses`). A directory is a value; a reader resolves links in it as the kernel does. `FileSystem` offers the
   system calls; each may fail at any time, and a ghost trace records every state the directory is ever in, including
   those inside `MkdirAll`, `WriteFile` and `RemoveAll`. `Writer.Write` is proved to go through exactly the steps of an
   `Attempt`, with no premise on the directory, the payload or the failures. `Publication` derives what one call means to
   a reader, `WriterRuns` what any sequence of calls and crashes means, and `WriterWitnesses` gives the inputs with which
   the writer falls short.
2. **The certificate protocol** (`Calendar`, `Certificates`, `SecretWriter`, `Replicas`, `Renewal`, `CertDir`).
   Certificates are records with key identities, names and validity intervals. A `Date` carries what AddDate makes of
   it, within bounds that `Calendar` proves of real months and leap years. `SecretWriter` runs one call against an API
   server on which anybody else may act between two requests; `Replicas` is the state machine of any number of replicas;
   `Renewal` is a history of calls over the years, on a Secret or on a directory.
3. **The webhook synchronization** (`Configuration`, `WebhookSync`): certificates, directory and both webhook
   configurations agree after a success, and a repetition changes nothing.
4. **The gateway and service controllers** (`Election`, `GatewayController`, `EventFilter`, `ServiceController`): the
   election, the refinement between the filtered and the unfiltered controller, and the convergence of Service and
   Endpoints.

Failures are counted, not remembered: "without faults" speaks of one call, so a call after a failed one can be fault-free
again. A failure that the code drops is kept apart: `walked` is what `Walk` reported of the live directory (a directory
that cannot be read is silently left out), and `skipped` are the missing links that `createUserVisibleFiles` took for
present because their lookup failed. Safety excludes neither. `Publication.NewViewIff` says exactly what a skipped link
costs, `Publication.SkipIsRightIff` and `Publication.MissedNameStays` what a missed directory costs.

What the main operations promise is said twice: by the functions that the proofs compute with, and by the fields of
certificates, webhooks, nodes and objects, or by positions in lists, without these functions (`FitToServe`, `Converted`,
`SaysReady`, `IsElected`, `Describes`, `AsAsked` and others). Lemmas prove that both are the same.

The writer asks its callers for paths that do not begin with `..`, but looks at the raw first item only, so `./..data`
passes. `Publication.PublishesIff` gives the exact condition on the names of the live and the new payload under which a
fault-free call publishes; names such as `..foo` do no harm, `..data` and `..data_tmp` do. Its premises are that the
payload can be written (no path above another, nothing but files in its way), that all live links are present and that no
temporary link is left; `Publication.OnlyAntiChainsAreRenamed`, `Publication.ClashIsRefused`, `Publication.NewViewIff` and
`Publication.TmpBlocks` say what happens otherwise. One premise is on the environment: MkdirTemp does not draw the name of
a live top entry whose link is missing.

Where the code differs from its own words, the model follows the code: a leaf lives ten years, not 365 days
(pkg/ravencontroller/webhook/util/generator/selfsigned.go:67); `validateGateway` reports a missing endpoint list and then
indexes it; certificates for an IPv6 host are never accepted.

Environment: `Clock` and `Env` values hold what the clock and MkdirTemp return; a clock never runs backwards and a call
takes less than 181 days. Random keys are never drawn twice. Each `char` stands for one byte. The lifetime of a fresh CA
(ten years from its creation) is that of `NewSelfSignedCACert` in client-go, which is not part of this model. JSON is a
lossless codec.

`dafny verify dfyconfig.toml` checks the whole project.

## Model

| member | source | states |
|---|---|---|
| `WriterRuns.RunIsSafe` | pkg/ravencontroller/webhook/util/writer/atomic/atomic_writer.go:122-225 | over any number of calls with any payloads, each successful, failed, with ignored errors, or cut off by a crash between any two file operations: the reader sees files of one payload only, the last one renamed (nothing if step 10 has removed the data link since), and of it exactly the files whose top name has its link and is not reserved |
| `WriterRuns.CarefulRunIsComplete` | pkg/ravencontroller/webhook/util/writer/atomic/atomic_writer.go:122-225 | in every reachable state the reader sees all of the last renamed payload, as long as no failed link lookup was ignored and no payload has a file ..data; other reserved names, faults, crashes and unreadable directories do not matter |
| `WriterRuns.UnreservedRunKeepsInv` | pkg/ravencontroller/webhook/util/writer/atomic/atomic_writer.go:84-87 | with the documented premise on paths, every reachable state keeps the full invariant and the data link never dangles |
| `WriterRuns.RunRecovers` | pkg/ravencontroller/webhook/util/writer/atomic/atomic_writer.go:166-222 | after any run, a fault-free update with a writable payload is shown in full, unless a temporary link was left or a reserved name is in the way; it reports an error all the same exactly if a dropped name cannot be unlinked |
| `WriterRuns.SkipDoesNotRecover` | pkg/ravencontroller/webhook/util/writer/atomic/atomic_writer.go:154-163 | a call with nothing to write succeeds and shows the payload if and only if no link is missing: it restores none |
| `WriterRuns.RunIsBlockedByTmp` | pkg/ravencontroller/webhook/util/writer/atomic/atomic_writer.go:187-193 | a leftover temporary link makes every update fail and keeps the live files in every state; without faults the call removes its own new directory |
| `WriterRuns.SteadyRunLeavesNoTmp` | pkg/ravencontroller/webhook/util/writer/atomic/atomic_writer.go:122-225 | after any number of calls that returned, each with at most one failed system call, there is no temporary link |
| `WriterRuns.SteadyRunRecovers` | pkg/ravencontroller/webhook/util/writer/atomic/atomic_writer.go:122-225 | so after such calls a fault-free update with a writable payload is shown in full |
| `Publication.EachState` | pkg/ravencontroller/webhook/util/writer/atomic/atomic_writer.go:122-225 | in every state of every call, up to the rename the live files are the old ones, from then on the new ones, or none if the data link was removed |
| `Publication.NewViewIff` | pkg/ravencontroller/webhook/util/writer/atomic/atomic_writer.go:417-437 | with no premise on faults or ignored errors: unless step 10 removes the data link, every state after the rename shows exactly the payload if and only if no visible link was skipped; the full invariant holds there if and only if every top name is in the directory right after the rename |
| `Publication.OldViewStays` | pkg/ravencontroller/webhook/util/writer/atomic/atomic_writer.go:166-201 | up to the rename the reader sees exactly the old files |
| `Publication.ShownAfterRename` | pkg/ravencontroller/webhook/util/writer/atomic/atomic_writer.go:200-224 | what is shown after the rename is the payload without the skipped and reserved names, or nothing once the data link is gone |
| `Publication.SkipsIff` | pkg/ravencontroller/webhook/util/writer/atomic/atomic_writer.go:144-163 | without faults the call ends with nothing done and success if and only if the live files are the payload |
| `Publication.SkipIsRightIff` | pkg/ravencontroller/webhook/util/writer/atomic/atomic_writer.go:144-163 | a skip is right if and only if every live path that Walk left out is a payload path or an ancestor of one; the payload files themselves are always in place |
| `Publication.PublishesIff` | pkg/ravencontroller/webhook/util/writer/atomic/atomic_writer.go:166-224 | without faults, from a tracked directory with all its links and no leftover temporary link, for an antichain with nothing but files in its way: the call succeeds with all old files before the rename and all new ones from then on, if and only if the payload does not use ..data_tmp, does not drop ..data while it has something to show, and every dropped name can be unlinked; the payload may otherwise have any names |
| `Publication.ClashIsRefused` | pkg/ravencontroller/webhook/util/writer/atomic/atomic_writer.go:298-310 | where something other than a file is in the way of a payload file and no payload file differs, every call reports an error and does nothing |
| `Publication.OnlyAntiChainsAreRenamed` | pkg/ravencontroller/webhook/util/writer/atomic/atomic_writer.go:376-405 | a payload with one path above another is never put in place: every state keeps the live files, success means that nothing was done, and without faults a call that has to write reports an error |
| `Publication.SucceedsIff` | pkg/ravencontroller/webhook/util/writer/atomic/atomic_writer.go:210-222 | after the rename a fault-free call succeeds if and only if every dropped name can be unlinked, and loses the data link if and only if that is dropped |
| `Publication.RenamesIff` | pkg/ravencontroller/webhook/util/writer/atomic/atomic_writer.go:181-201 | a fault-free update comes to the rename if and only if the payload does not use the name of the temporary link |
| `Publication.HarmlessIsPublished` | pkg/ravencontroller/webhook/util/writer/atomic/atomic_writer.go:84-87 | names that only look reserved, such as ..foo, are published, and the weaker invariant that allows them holds again |
| `Publication.DroppedDataErasesTheView` | pkg/ravencontroller/webhook/util/writer/atomic/atomic_writer.go:439-453 | if a file ..data is live, a fault-free update without it removes the data link, and nothing is shown |
| `Publication.TmpBlocks` | pkg/ravencontroller/webhook/util/writer/atomic/atomic_writer.go:187-193 | with a leftover temporary link no call renames, all states keep the live files, and the new directory is removed again |
| `Publication.TmpOnlyBeforeRename` | pkg/ravencontroller/webhook/util/writer/atomic/atomic_writer.go:187-202 | in a fault-free call the temporary link exists in the one state before the rename, so a crash leaves it behind if and only if it falls there |
| `Publication.OneFailureLeavesNoTmp` | pkg/ravencontroller/webhook/util/writer/atomic/atomic_writer.go:187-208 | a call in which at most one system call fails ends without a temporary link, unless one was there or the payload uses its name; if its rename failed, only new links remain |
| `Publication.NamesInTheEnd` | pkg/ravencontroller/webhook/util/writer/atomic/atomic_writer.go:210-222 | a successful update leaves the old visible names without those the walk reported as stale, plus the top names without the skipped ones; the new directory replaces the old one |
| `Publication.MissedNameStays` | pkg/ravencontroller/webhook/util/writer/atomic/atomic_writer.go:315-352 | a dropped name keeps its link, which leads nowhere, if and only if the walk did not report it |
| `Publication.ManagedState` | pkg/ravencontroller/webhook/util/writer/atomic/atomic_writer.go:122-225 | under the invariant and without reserved names, every state keeps the invariant and holds all old or all new files, depending on the rename only |
| `Publication.ManagedSuccess` | pkg/ravencontroller/webhook/util/writer/atomic/atomic_writer.go:122-225 | then a success that ignored nothing holds the payload, and nothing is done if and only if it was there |
| `WriterWitnesses.ReservedNameErasesTheView` | pkg/ravencontroller/webhook/util/writer/atomic/atomic_writer.go:122-225 | the writer itself on an empty directory: payload ./..data, then payload a, both accepted; without faults both calls succeed, the data link is gone, and a cannot be seen |
| `WriterWitnesses.DataNameIsErased` | pkg/ravencontroller/webhook/util/writer/atomic/atomic_writer.go:439-453 | for any directory and any two fault-free updates, the first with a file ..data and the second without, nothing is shown at the end |
| `WriterWitnesses.SelfLinkBlocksForGood` | pkg/ravencontroller/webhook/util/writer/atomic/atomic_writer.go:130-164 | with a data link to itself every call with a payload that is not empty fails at once, and every call leaves the link; the empty payload alone succeeds, and changes nothing |
| `WriterWitnesses.SelfLinkArises` | pkg/ravencontroller/webhook/util/writer/atomic/atomic_writer.go:181-208 | a call on a directory without data link leaves, wherever it is cut off before the rename and also when it returns an error there, either no data link or one to itself, and the latter only for a payload with a name ..data |
| `WriterWitnesses.SelfLinkIsReached` | pkg/ravencontroller/webhook/util/writer/atomic/atomic_writer.go:181-208 | both ways are real: from the empty directory, a run of one call for the payload ..data that crashes after its third step, and one whose symlink fails and that returns the error, leave the data link pointing at itself |
| `WriterWitnesses.TmpNameBlocksForGood` | pkg/ravencontroller/webhook/util/writer/atomic/atomic_writer.go:181-193 | a payload with a file ..data_tmp cannot be written and blocks every later update |
| `WriterWitnesses.TwoFailuresLeaveTheLink` | pkg/ravencontroller/webhook/util/writer/atomic/atomic_writer.go:201-208 | two failures are enough: the rename and the removal of its temporary link; the link stays, and every later call with files fails |
| `WriterWitnesses.DroppedLinkHidesAFile` | pkg/ravencontroller/webhook/util/writer/atomic/atomic_writer.go:428-429 | a run with one failed link lookup: success, and the file cannot be seen |
| `WriterWitnesses.DroppedWalkKeepsAFile` | pkg/ravencontroller/webhook/util/writer/atomic/atomic_writer.go:315-331 | a run with one unreadable directory: success by skipping, and the file that should go is still shown |
| `WriterRuns.SuccessfulRunsAreTidy` | pkg/ravencontroller/webhook/util/writer/atomic/atomic_writer.go:210-222 | after successful calls the visible links are exactly the top names of the last payload and one timestamp directory remains, the live one |
| `WriterRuns.PlainPathsAreUnreserved` | pkg/ravencontroller/webhook/util/writer/atomic/atomic_writer.go:249-279 | paths whose first item is not "." clean to no reserved name, so the premise on the payload is met |
| `AtomicWriter.Writer.Write` | pkg/ravencontroller/webhook/util/writer/atomic/atomic_writer.go:122-225 | rejects exactly the payloads with an unacceptable path, without touching the directory; otherwise goes through the steps of an Attempt, with no premise on the directory: when it skips, stops or goes on; every state before the rename (new directory, missing links, temporary link); the state after it, complete but for the skipped links; every state of the cleaning up, and when it succeeds; if a single system call fails and the call does not rename, the temporary link is not left, and a failed rename is taken back |
| `AtomicWriter.Writer.Update` | pkg/ravencontroller/webhook/util/writer/atomic/atomic_writer.go:130-224 | steps 2 to 11 on the cleaned payload: the four parts of an Attempt |
| `AtomicWriter.Writer.Decide` | pkg/ravencontroller/webhook/util/writer/atomic/atomic_writer.go:130-164 | steps 2 to 4: a call that ends here is a whole Attempt without a step; otherwise there is something to write |
| `AtomicWriter.Writer.Publish` | pkg/ravencontroller/webhook/util/writer/atomic/atomic_writer.go:166-224 | steps 5 to 11 of a call that has decided to write: the four parts of an Attempt |
| `AtomicWriter.Writer.Install` | pkg/ravencontroller/webhook/util/writer/atomic/atomic_writer.go:166-208 | steps 5 to 9: every state only adds to the directory; success ends in one symlink and one rename of a complete directory with all but the skipped links; without faults it fails only on a name that is taken, a payload that is no antichain, or an existing temporary link, and then leaves only new links; after a single failed system call no temporary link is left, and a failed rename leaves only new links |
| `AtomicWriter.Writer.Compare` | pkg/ravencontroller/webhook/util/writer/atomic/atomic_writer.go:144-164 | skips only if every payload file is in place and no walked path is outside the payload, and without a fault exactly then; goes on only for a file that is missing or different, or a path to remove; fails without a fault only where something other than a file is in the way |
| `AtomicWriter.Writer.PathsToRemove` | pkg/ravencontroller/webhook/util/writer/atomic/atomic_writer.go:315-352 | exactly the walked paths that are neither in the payload nor an ancestor of it; all live paths are walked unless an error was dropped |
| `AtomicWriter.Writer.ShouldWritePayload` | pkg/ravencontroller/webhook/util/writer/atomic/atomic_writer.go:282-295 | true only for a file that is missing or different, false only if every file is in place; an error without a fault has something else in the way |
| `AtomicWriter.Writer.ShouldWriteFile` | pkg/ravencontroller/webhook/util/writer/atomic/atomic_writer.go:298-310 | true for a missing path or another content, false for the same content; errors exactly where something else is in the way |
| `AtomicWriter.Writer.WritePayloadToDir` | pkg/ravencontroller/webhook/util/writer/atomic/atomic_writer.go:376-405 | on success the new directory is exactly the tree of the payload, which then is an antichain; without a fault it fails only if some path is an ancestor of another |
| `AtomicWriter.Writer.CreateUserVisibleFiles` | pkg/ravencontroller/webhook/util/writer/atomic/atomic_writer.go:417-437 | only adds missing links to the data directory under the top names, and all of them unless a lookup error was dropped; it fails only by a fault |
| `AtomicWriter.Writer.RemoveUserVisiblePaths` | pkg/ravencontroller/webhook/util/writer/atomic/atomic_writer.go:441-456 | only removes root names among the paths; without faults it removes those that can be unlinked, and succeeds if and only if all can |
| `AtomicWriter.Writer.Swap` | pkg/ravencontroller/webhook/util/writer/atomic/atomic_writer.go:187-208 | success is one symlink and one rename; a failure touches only the temporary link and the new directory; after a single failed system call, whichever it is, both are gone again |
| `AtomicWriter.Writer.CleanUp` | pkg/ravencontroller/webhook/util/writer/atomic/atomic_writer.go:210-222 | every state only lacks stale names or parts of the old directory; success leaves exactly the rest; without faults it succeeds if and only if every stale name can be unlinked |
| `AtomicWriter.ValidatePayload` | pkg/ravencontroller/webhook/util/writer/atomic/atomic_writer.go:228-239 | succeeds if and only if every path is accepted; the result has exactly the cleaned paths, each with the content of a path that cleans to it |
| `AtomicWriter.StaleNames` | pkg/ravencontroller/webhook/util/writer/atomic/atomic_writer.go:441-448 | the stale links are the old top names that the payload does not use |
| `AtomicWriter.EndsAfterSwap` | pkg/ravencontroller/webhook/util/writer/atomic/atomic_writer.go:200-224 | a call that swapped has gone through all parts of an Attempt, however the cleaning up ends |
| `AtomicWriter.TreeOfMore` | pkg/ravencontroller/webhook/util/writer/atomic/atomic_writer.go:376-405 | writing one more file with its ancestors gives the tree of the larger payload |
| `AtomicWriter.NoRoomMeansNoAntiChain` | pkg/ravencontroller/webhook/util/writer/atomic/atomic_writer.go:383-393 | a path that cannot be written beside the others is an ancestor or a descendant of one of them, or the directory itself |
| `Disk.InvView` | pkg/ravencontroller/webhook/util/writer/atomic/atomic_writer.go:106-115 | under the invariant, link resolution shows the reader exactly the files of the live tree |
| `Disk.ShownIsView` | pkg/ravencontroller/webhook/util/writer/atomic/atomic_writer.go:106-115 | resolving links as the kernel does, through the data link, through a data link to itself and through missing ones, shows exactly the live files whose top name has a link and is not reserved |
| `Disk.ViewIff` | pkg/ravencontroller/webhook/util/writer/atomic/atomic_writer.go:49-54 | the view is that of a payload if and only if what is shown is the payload without reserved names |
| `Disk.ViewNeedsEveryLink` | pkg/ravencontroller/webhook/util/writer/atomic/atomic_writer.go:417-437 | all live files are shown if and only if every visible top name has its link |
| `Disk.ViewIsUnique` | pkg/ravencontroller/webhook/util/writer/atomic/atomic_writer.go:49-54 | the view determines the files outside the reserved names |
| `Disk.SkipIsExact` | pkg/ravencontroller/webhook/util/writer/atomic/atomic_writer.go:144-164 | no payload file differs and no live path lies outside the ancestor closure, if and only if the live files are the payload |
| `Disk.LookupClosed` | pkg/ravencontroller/webhook/util/writer/atomic/atomic_writer.go:298-310 | in a closed tree a path leads to a file exactly when it is a key that holds one |
| `Disk.TreeOfIsPayloadTree` | pkg/ravencontroller/webhook/util/writer/atomic/atomic_writer.go:376-405 | the tree of an antichain is closed, has no empty directory, and has exactly its files and top names |
| `PathCleaning.ValidatePath` | pkg/ravencontroller/webhook/util/writer/atomic/atomic_writer.go:249-279 | accepts exactly the paths that satisfy the documented conditions, with at most 4096 characters and items of at most 255; says which check failed |
| `PathCleaning.CleanIsSafeAndStable` | pkg/ravencontroller/webhook/util/writer/atomic/atomic_writer.go:228-279 | an accepted path cleans to a path that is no longer, relative, without ".." and a fixpoint of cleaning |
| `PathCleaning.CleanedIsAcceptedIff` | pkg/ravencontroller/webhook/util/writer/atomic/atomic_writer.go:265-276 | the cleaned path is accepted if and only if its first component is not reserved; a first item other than "." suffices |
| `PathCleaning.ReservedNameSlipsThrough` | pkg/ravencontroller/webhook/util/writer/atomic/atomic_writer.go:274-276 | ./..data is accepted and cleans to ..data |
| `PathCleaning.CleanAccepted` | pkg/ravencontroller/webhook/util/writer/atomic/atomic_writer.go:235-235 | filepath.Clean on an accepted path drops empty and "." items and joins the rest |
| `PathCleaning.SubPaths` | pkg/ravencontroller/webhook/util/writer/atomic/atomic_writer.go:337-345 | the ancestor loop ends and collects exactly the non-empty component prefixes |
| `PathCleaning.SplitJoin` | pkg/ravencontroller/webhook/util/writer/atomic/atomic_writer.go:265-265 | splitting undoes joining, so cleaned paths and component lists correspond one to one |
| `Certificates.GeneratedIsAcceptedIff` | pkg/ravencontroller/webhook/util/generator/selfsigned.go:68-180 | a generated certificate passes validCert at once and for 181 days, if and only if the host is not IPv6 and a reused CA is marked as CA and starts no later than six months from the check |
| `Certificates.ValidMeans` | pkg/ravencontroller/webhook/util/writer/certwriter.go:107-146 | `validCert` accepts exactly when the key is that of the leaf, and the leaf names the host, is in its lifetime in six months, and is signed by a CA of the bundle that is in its own |
| `Certificates.OneDefectIsEnough` | pkg/ravencontroller/webhook/util/writer/certwriter.go:107-146 | a good pair with one thing wrong, its key, signer, name, start or end, is refused |
| `Certificates.ReusableMeans` | pkg/ravencontroller/webhook/util/generator/selfsigned.go:118-142 | the reuse test accepts exactly one RSA key with its one certificate, in its lifetime in a year |
| `Certificates.GeneratedMeans` | pkg/ravencontroller/webhook/util/generator/selfsigned.go:68-116 | a generated result by its fields: a leaf with its own key, for localhost and the host, signed by the CA it comes with, from the start of that CA for ten years; the CA is the given one if and only if that is fit to sign, and else a fresh one |
| `Certificates.FreshIsAccepted` | pkg/ravencontroller/webhook/util/generator/selfsigned.go:76-84 | whenever a fresh CA signs, because there was none or the stored one was unfit, the certificate is accepted for every host but an IPv6 address |
| `Certificates.ReuseAcceptsNonCA` | pkg/ravencontroller/webhook/util/generator/selfsigned.go:118-142 | the reuse test accepts a self-issued certificate that cannot sign |
| `Certificates.GeneratedCAStaysGood` | pkg/ravencontroller/webhook/util/generator/selfsigned.go:118-142 | a reusable CA is kept byte for byte; the CA lasts at least one more year and the leaf ten |
| `Certificates.SelfSignedCertGenerator.Generate` | pkg/ravencontroller/webhook/util/generator/selfsigned.go:68-116 | the result, by its fields, is a leaf for the host, signed by the given CA if that is fit to sign for a year and by a fresh one if not; the empty host is an error |
| `Certificates.SelfSignedCertGenerator.SetCA` | pkg/ravencontroller/webhook/util/generator/selfsigned.go:58-61 | sets the CA pair |
| `Calendar.SixMonthsBounds` | pkg/ravencontroller/webhook/util/writer/certwriter.go:136-140 | six calendar months from any moment of any year are 181 to 184 days |
| `Calendar.OneYearBounds` | pkg/ravencontroller/webhook/util/generator/selfsigned.go:119-120 | one calendar year from any moment is 365 or 366 days |
| `Calendar.EveryDayIsADate` | pkg/ravencontroller/webhook/util/writer/certwriter.go:136-140 | every moment of the calendar, with what AddDate makes of it, is a `Date`, so that what is proved of all dates holds of the calendar |
| `SecretWriter.SecretCertWriter.HandleCommon` | pkg/ravencontroller/webhook/util/writer/certwriter.go:54-77 | whatever others do between the API calls, the certificates returned were in the Secret at one moment of the call, and what this process writes replaces nothing valid; undisturbed, every new state of the Secret is a renewal (made for the host with the stored CA, of a pair that failed the test, or of none), whatever the call returns; a success returns what is stored, valid at the check or new; undisturbed and without faults it succeeds; what it returns as unchanged a client accepts in six months; a lost race is not an error |
| `SecretWriter.SecretCertWriter.EnsureCert` | pkg/ravencontroller/webhook/util/writer/secret.go:84-88 | all of that for a given host, and by the fields of the certificates: undisturbed, a stored pair is kept if and only if a client would accept it in six months, and is replaced by one issued for the host otherwise, under the stored CA if that is fit to sign; what is returned can always be presented for six months, and a client accepts it then if the signer may sign |
| `SecretWriter.SecretCertWriter.CreateIfNotExists` | pkg/ravencontroller/webhook/util/writer/certwriter.go:79-95 | read, create, and read again after a lost race: what is returned is in the Secret at the end, only an absent Secret is created, with certificates made for the host, and an existing one is not written whatever is returned; without faults it fails only if the Secret is deleted meanwhile |
| `SecretWriter.SecretCertWriter.RecreateIfInvalid` | pkg/ravencontroller/webhook/util/writer/certwriter.go:66-76 | a valid Secret is left alone; an invalid one is replaced only in the version that was judged, by certificates made for the host with the CA of the generator |
| `SecretWriter.ValidIsNotRenewed` | pkg/ravencontroller/webhook/util/writer/certwriter.go:66-76 | where every new state is a renewal, a Secret that was valid at the check has not changed |
| `SecretWriter.SecretCertWriter.ReadCerts` | pkg/ravencontroller/webhook/util/writer/secret.go:126-148 | returns the fields ca-key.pem, ca-cert.pem, key.pem and cert.pem and the version of the Secret, and hands its CA to the generator |
| `SecretWriter.SecretCertWriter.Write` | pkg/ravencontroller/webhook/util/writer/secret.go:101-111 | creates the Secret with the six fields of generated certificates, only where there is none; a lost race is reported |
| `SecretWriter.SecretCertWriter.Overwrite` | pkg/ravencontroller/webhook/util/writer/secret.go:113-124 | replaces exactly the named version by the six fields of generated certificates |
| `SecretWriter.SecretRoundTrip` | pkg/ravencontroller/webhook/util/writer/secret.go:150-182 | secretToCerts undoes certsToSecret |
| `SecretWriter.DataHasFields` | pkg/ravencontroller/webhook/util/writer/secret.go:150-168 | the data written has exactly the six named fields, each with its certificate or key |
| `SecretWriter.SuccessRepairs` | pkg/ravencontroller/webhook/util/writer/certwriter.go:54-77 | from what HandleCommon promises of its log: what was fit is returned and not written, anything else is replaced |
| `SecretWriter.ServedIsFit` | pkg/ravencontroller/webhook/util/writer/certwriter.go:54-146 | what a success leaves can be presented for six months, and is accepted then if its signer may sign |
| `SecretWriter.OwnCertIsValid` | pkg/ravencontroller/webhook/util/writer/certwriter.go:82-94 | a certificate the process just generated passes its own test, unless the host is IPv6 or the CA is no good signer |
| `Replicas.AtMostOneWrite` | pkg/ravencontroller/webhook/util/writer/certwriter.go:54-95 | in every run of any number of replicas, with lost replies, errors and retries, the Secret is written at most once, and never if it was valid; valid means that a client accepts what is stored in six months |
| `Replicas.FinishersAgree` | pkg/ravencontroller/webhook/util/writer/certwriter.go:54-95 | all replicas that finish return the same certificates, those of the Secret, which a client accepts in six months and which was written exactly once or not at all |
| `Replicas.ValidIsFinal` | pkg/ravencontroller/webhook/util/writer/secret.go:113-124 | once valid, the Secret never changes again |
| `Replicas.RunKeepsInv` | pkg/ravencontroller/webhook/util/writer/certwriter.go:54-95 | prepared writes are good, and a prepared overwrite names a version that is bad or gone |
| `Replicas.StepKeepsInv` | pkg/ravencontroller/webhook/util/writer/certwriter.go:54-95 | every step of every replica keeps that |
| `Replicas.EachCanFinish` | pkg/ravencontroller/webhook/util/writer/certwriter.go:54-95 | from every state of a run, each replica needs at most four steps of its own to finish, whatever race it has lost |
| `Replicas.AloneIsAStep` | pkg/ravencontroller/webhook/util/writer/certwriter.go:54-95 | each of these is a step of the protocol |
| `Replicas.NoWriteFollows` | pkg/ravencontroller/webhook/util/writer/certwriter.go:54-95 | from what HandleCommon promises of each write, over real clocks: no write follows another one while the first certificate still passes, that is for up to 181 days |
| `Replicas.OneWritePerWindow` | pkg/ravencontroller/webhook/util/writer/certwriter.go:54-95 | so in a log that only such replicas write there is at most one write in a window, and none while what was stored passes |
| `Renewal.RenewalLeavesNoGap` | pkg/ravencontroller/webhook/util/writer/certwriter.go:107-146 | with a Secret and with a directory: between two successes at most six months apart, a client that trusts the CA stored with it accepts whatever is stored, at every moment: between the calls, while a call runs, and from the moment at which it has stored a new pair until it returns, however many calls failed in between and whatever these wrote |
| `Renewal.ReachableUntilDue` | pkg/ravencontroller/webhook/util/writer/certwriter.go:107-146 | after any call, with a Secret or a directory, up to six months after the check of the last success |
| `Renewal.ReachableOnceRenewed` | pkg/ravencontroller/webhook/util/writer/certwriter.go:107-146 | a pair that the next call stores is accepted from the moment it is stored |
| `Renewal.SecretCall` | pkg/ravencontroller/webhook/util/writer/certwriter.go:54-77 | what `HandleCommon` promises of its log makes an undisturbed call a call of these histories, at each of its states |
| `Renewal.DirectoryCall` | pkg/ravencontroller/webhook/util/writer/fs.go:77-101 | so does what `FsCertWriter.EnsureCert` promises of its trace |
| `Renewal.HistoryKeepsSound` | pkg/ravencontroller/webhook/util/writer/certwriter.go:107-146 | after every call, failed or not, the stored pair is one leaf under one started CA, and both last six months from the last successful check |
| `Renewal.CAChangesOnlyWhenUnfit` | pkg/ravencontroller/webhook/util/writer/secret.go:126-146 | with a Secret, any call that finds one changes the CA certificate only if the stored one fails the one-year test |
| `CertDir.CertDirWriter.WriteCertsToDir` | pkg/ravencontroller/webhook/util/writer/fs.go:103-117 | from a managed directory, or one with regular files at the six names, a success is read back as the four strings if and only if no link was skipped; every state holds old or new certificates, and in a managed directory every state reads back as the old or as the new ones; if they are in place nothing changes; without faults and with room for the new directory it succeeds, and a usable directory stays usable; a success shows the six named files, and no single failed system call leaves the temporary link |
| `CertDir.WritesOldOrNew` | pkg/ravencontroller/webhook/util/writer/fs.go:103-117 | every state of a call of the writer that skips no link reads back as before the call or as the new certificates |
| `CertDir.SameFilesReadSame` | pkg/ravencontroller/webhook/util/writer/fs.go:155-197 | two managed certificate directories with the same live files read back the same |
| `CertDir.CertDirWriter.PrepareToWrite` | pkg/ravencontroller/webhook/util/writer/fs.go:120-153 | leaves a managed directory alone and turns an unmanaged one into a managed empty one, unless it lost something by an ignored error; fails only by a fault, and then changes nothing |
| `CertDir.CertDirWriter.Read` | pkg/ravencontroller/webhook/util/writer/fs.go:155-181 | returns ca-key.pem, ca-cert.pem, key.pem and cert.pem exactly when all six names exist and the four can be read; without faults it is unreadable only if something other than a file is under a name |
| `CertDir.CertDirWriter.EnsureExist` | pkg/ravencontroller/webhook/util/writer/fs.go:183-197 | success means all six names exist; not-found means one of them does not |
| `CertDir.FsCertWriter.EnsureCert` | pkg/ravencontroller/webhook/util/writer/fs.go:77-101 | all of that, and by the fields of the certificates: a stored pair is kept if and only if a client would accept it in six months, and is replaced by one issued for the host otherwise; what is returned can be presented for six months |
| `CertDir.FsCertWriter.HandleCommon` | pkg/ravencontroller/webhook/util/writer/certwriter.go:54-77 | what it returns is what the directory holds, valid at the check or generated for the host; valid certificates are returned without touching the directory; in a managed directory, unless a file error was ignored, every state reads back as before or as renewed; without faults it succeeds on every usable directory |
| `CertDir.FsCertWriter.CreateIfNotExists` | pkg/ravencontroller/webhook/util/writer/certwriter.go:79-95 | certificates that can be read are returned and nothing is written; only not-found generates, what it creates is made for the host, and every state reads back as before or as that |
| `CertDir.FsCertWriter.RecreateIfInvalid` | pkg/ravencontroller/webhook/util/writer/certwriter.go:66-76 | valid certificates are returned untouched; others are replaced by certificates made for the host, and every state of both halves reads back as before or as renewed |
| `CertDir.FsCertWriter.DoWrite` | pkg/ravencontroller/webhook/util/writer/fs.go:91-101 | success leaves the directory holding and reading back certificates made for the host; every state of a managed directory reads back as before or as these |
| `CertDir.DirRoundTrip` | pkg/ravencontroller/webhook/util/writer/fs.go:155-227 | a directory that holds the projection of the certificates reads back as these certificates |
| `CertDir.WrittenMeans` | pkg/ravencontroller/webhook/util/writer/fs.go:103-117 | one call of the writer on the six files: a success reads back if and only if no link was skipped, and no state mixes old and new |
| `CertDir.CertWriteSucceeds` | pkg/ravencontroller/webhook/util/writer/fs.go:103-117 | a fault-free call on a directory that only ever held certificates succeeds |
| `CertDir.PlainNamesWritable` | pkg/ravencontroller/webhook/util/writer/fs.go:199-227 | a projection of plain names is an antichain without reserved names, so it can always be written |
| `Configuration.ConfigStore.Ensure` | pkg/ravencontroller/webhook/util/configuration/configuration.go:37-96 | with other replicas at work, each configuration is always the original or the original with one of the bundles, the annotation still encoding the original; success means this bundle; a failure never puts the mutating one ahead; repeating changes nothing; undisturbed and without faults it succeeds if and only if every service to convert has a path; by fields: after a success the webhooks are those of the original, each with the bundle, and each service is the configured one under its old path, or has become the URL of the host, port and path |
| `Configuration.ConfigStore.BuildWebhooks` | pkg/ravencontroller/webhook/util/configuration/configuration.go:56-86 | the in-place loop gives every webhook of the template the bundle and its service or URL, and keeps names, rules and the URLs of the others; it dereferences nil exactly when a service without path has to become a URL |
| `Configuration.ApplyMeans` | pkg/ravencontroller/webhook/util/configuration/configuration.go:56-102 | what is applied to a template is determined field by field, webhook by webhook |
| `Configuration.ConfigStore.UpdateValidating` | pkg/ravencontroller/webhook/util/configuration/configuration.go:88-90 | an object that is replaced, or found to be in place, had the version that was read; content that is in place is not written |
| `Configuration.ConfigStore.UpdateMutating` | pkg/ravencontroller/webhook/util/configuration/configuration.go:91-93 | an object that is replaced, or found to be in place, had the version that was read; content that is in place is not written |
| `Configuration.TemplateIsOriginal` | pkg/ravencontroller/webhook/util/configuration/configuration.go:104-142 | in every such configuration the template in force is the original |
| `Configuration.HistoryIsForgotten` | pkg/ravencontroller/webhook/util/configuration/configuration.go:37-142 | after any sequence of calls a configuration is the original or the original with the bundle of one of them: nothing of an earlier call is left in it |
| `WebhookSync.Controller.Sync` | pkg/ravencontroller/webhook/util/controller/webhook_controller.go:192-235 | undisturbed success without ignored file errors means directory, Secret and both configurations agree, on certificates that were stored and passed the test or are new; every webhook that was installed with a service dials a host that the certificate names, under a bundle that signed it, and for every host but an IPv6 address it gets an answer in six months if the signer may sign; where all agree on a valid certificate the Secret is not written whatever the outcome, and without file faults no file and no configuration changes; the signal is given by success only; it panics only if a service to convert has no path; undisturbed and without faults it succeeds |
| `WebhookSync.Controller.EnsureCert` | pkg/ravencontroller/webhook/util/controller/webhook_controller.go:198-222 | the certificate step of either mode: undisturbed it returns what is stored, valid at the check or new and made for the host, and a valid stored certificate is left alone whatever it returns |
| `WebhookSync.Controller.Spread` | pkg/ravencontroller/webhook/util/controller/webhook_controller.go:222-229 | the last two steps: a success leaves the certificates in the directory and their CA in both configurations, and where they are there nothing changes; no configuration changes before the certificates are in the directory |
| `WebhookSync.Controller.DialledIsServed` | pkg/ravencontroller/webhook/util/generator/selfsigned.go:43-46 | the host that a converted webhook dials, read off its service or its URL, is the one the certificate is asked for |
| `WebhookSync.Controller.ServedHooksAnswer` | pkg/ravencontroller/webhook/util/controller/webhook_controller.go:192-235 | so the API server, dialling any of these webhooks, is presented a certificate it accepts |
| `WebhookSync.Controller.RenewedStaysSettled` | pkg/ravencontroller/webhook/util/controller/webhook_controller.go:192-235 | if all agree on new certificates whose signer passes the test, then all are still settled for 181 days: the next synchronization in that time changes nothing |
| `WebhookSync.Controller.ProcessNextWorkItem` | pkg/ravencontroller/webhook/util/controller/webhook_controller.go:173-190 | a failed synchronization is in the queue again and counted, a successful one resets the retries, a nil dereference ends the process with nothing counted or queued again, and the directory stays usable for the next one |
| `WebhookSync.Controller.FailThenRetry` | pkg/ravencontroller/webhook/util/controller/webhook_controller.go:173-235 | whatever failed in one round, if no failed file operation was ignored and no temporary link was left, a second round without faults brings everything into agreement and gives the signal |
| `Election.ElectActiveEndpoint` | pkg/ravencontroller/controllers/gateway/gateway_controller.go:156-200 | an endpoint of the spec whose node is listed and says it is ready, and none exactly if there is none: the active node as long as it is ready and its endpoint in the spec, the first such endpoint otherwise |
| `Election.ReadyMeans` | pkg/ravencontroller/controllers/gateway/gateway_controller.go:231-251 | a node is ready exactly if the first of its conditions of type Ready has the status True |
| `Election.ElectMeans` | pkg/ravencontroller/controllers/gateway/gateway_controller.go:156-200 | the election function meets this description, by positions in the spec |
| `Election.OneIsElected` | pkg/ravencontroller/controllers/gateway/gateway_controller.go:156-200 | and nothing else meets it |
| `Election.ElectIsSoundAndComplete` | pkg/ravencontroller/controllers/gateway/gateway_controller.go:156-200 | the result is a spec endpoint on a ready node, and there is none if and only if no spec endpoint has one |
| `Election.ElectIsIdempotent` | pkg/ravencontroller/controllers/gateway/gateway_controller.go:184-191 | electing again from the result returns it, even with several endpoints per node |
| `Election.ElectIsSticky` | pkg/ravencontroller/controllers/gateway/gateway_controller.go:153-155 | the active node is given up only when it is not ready or its endpoint left the spec |
| `Election.LBElectionIsMemorylessIff` | pkg/ravencontroller/controllers/gateway/gateway_controller.go:95-107 | behind a load balancer the election ignores the status it wrote, for all sets of ready nodes, if and only if the IP is not empty or the active endpoint is on the first node |
| `Election.LBStableAfterTwo` | pkg/ravencontroller/controllers/gateway/gateway_controller.go:92-107 | with fixed inputs the active endpoint is stable after two reconciles |
| `Election.ValidateGateway` | pkg/ravencontroller/apis/raven/v1alpha1/gateway_webhook.go:81-117 | admits exactly the specs that satisfy the rules, and panics exactly on an empty list; a denial reports exactly the fields that break a rule |
| `GatewayController.Cluster.Reconcile` | pkg/ravencontroller/controllers/gateway/gateway_controller.go:67-133 | without API errors the outcome is done, waiting for the address, or, where there is an address but no spec endpoint on a ready node, the nil dereference; done writes the elected endpoint, with the address of the load balancer, and a node list that gives each managed node once with its first internal address and its blocks or range, and touches nothing else; every other outcome changes nothing |
| `GatewayController.Cluster.ChooseActive` | pkg/ravencontroller/controllers/gateway/gateway_controller.go:92-107 | step 1: the elected endpoint, with the address of the load balancer if there is one |
| `GatewayController.InfoMeans` | pkg/ravencontroller/controllers/gateway/gateway_controller.go:109-124 | a node is described by its name, its first internal address that parses, and the confirmed Calico blocks in order or its own range |
| `GatewayController.Cluster.ListNodes` | pkg/ravencontroller/controllers/gateway/gateway_controller.go:78-90 | each node with the gateway label, once |
| `GatewayController.Cluster.GetPodCIDRs` | pkg/ravencontroller/controllers/gateway/gateway_controller.go:253-273 | the confirmed blocks of a Calico node, by their positions in the list, the node's own range otherwise |
| `GatewayController.ListedReady` | pkg/ravencontroller/controllers/gateway/gateway_controller.go:157-163 | the ready names among the listed nodes are the ready managed nodes |
| `EventFilter.FilterLosesNothing` | pkg/ravencontroller/controllers/gateway/predicates.go:39-67 | over any sequence of node and spec events, dropping the rejected updates gives the same active endpoint as reconciling everything after every event; it is what an election over the nodes that say they are ready gives |
| `EventFilter.RunIsSticky` | pkg/ravencontroller/controllers/gateway/gateway_controller.go:153-155 | at every point of a filtered run, an event takes the active node away only if it then does not say it is ready or is not managed, or its endpoint left the spec |
| `EventFilter.NotRequestedMeansUnchanged` | pkg/ravencontroller/controllers/gateway/predicates.go:50-66 | a gateway that an event does not enqueue keeps its ready nodes and its spec |
| `EventFilter.DropsIff` | pkg/ravencontroller/controllers/gateway/predicates.go:39-67 | the filter drops exactly the updates that change neither the gateway label nor what the Ready condition says |
| `EventFilter.RequestedIsConcerned` | pkg/ravencontroller/controllers/gateway/gateway_controller.go:203-229 | a node event enqueues only existing gateways whose label the node has or had |
| `EventFilter.FilteredStep` | pkg/ravencontroller/controllers/gateway/gateway_controller.go:203-229 | one filtered event settles the gateway with the endpoint an election gives |
| `ServiceController.ServiceReconciler.Reconcile` | pkg/ravencontroller/controllers/service/service_controller.go:56-79 | a success leaves the Service in existence if and only if a gateway is behind a load balancer, and the Endpoints with the first internal address of the node of the first such gateway that has an active endpoint, on UDP port 4500, deleted if no gateway is, and as they were if none has one; after the lookup of the Service failed and the code ignored that, at most the Service is missing; without faults it succeeds unless the active node is missing; a converged state is left alone |
| `ServiceController.ConvergedMeans` | pkg/ravencontroller/controllers/service/service_controller.go:81-205 | nothing is left to do exactly if both objects are so, by positions in the list and fields of the node |
| `ServiceController.ServiceReconciler.FailThenRetry` | pkg/ravencontroller/controllers/service/service_controller.go:56-79 | whatever failed in one reconcile, a second one without faults converges unless the active node is missing |
| `ServiceController.ServiceReconciler.ReconcileService` | pkg/ravencontroller/controllers/service/service_controller.go:81-129 | creates, keeps or deletes the Service to match the gateways |
| `ServiceController.ServiceReconciler.ReconcileEndpoint` | pkg/ravencontroller/controllers/service/service_controller.go:131-151 | the first exposed gateway with an active endpoint decides; a missing node is an error that changes nothing |
| `ServiceController.ServiceReconciler.EnsureEndpoint` | pkg/ravencontroller/controllers/service/service_controller.go:165-205 | success leaves exactly the subset of the node |
| `ServiceController.ChangesAreNoticed` | pkg/ravencontroller/controllers/service/service_controller.go:208-218 | every gateway creation, deletion or update that changes the target enqueues a request |
| `ServiceController.OnlyExposedEnqueue` | pkg/ravencontroller/controllers/service/service_controller.go:208-218 | an event enqueues a request exactly if the gateway is behind a load balancer, or was before an update or a deletion |
| `ServiceController.PlainGatewayIsIrrelevant` | pkg/ravencontroller/controllers/service/service_controller.go:132-147 | a gateway without load balancer does not affect the target, wherever it stands |

## Left out

- The Windows branch of the swap: it is not atomic.
- File modes, umask and chmod: the skip test ignores them. A chmod that fails after MkdirTemp is modelled, because it ends the call.
- Concurrent calls to one `Writer`: excluded by its documentation, and the webhook controller has one worker.
- AtomicWriter.Writer.Update: for a `..data` link into another directory, Walk and RemoveAll are modelled as finding nothing there; the writer never makes such a link.
- CertDir.CertDirWriter.PrepareToWrite: a missing directory is an empty one; that making it may fail is modelled, its parents are not.
- CertDir.CertDirWriter.WriteCertsToDir: promises nothing for a directory at one of the six names, or after an ignored error in `prepareToWrite` (`lost`), because the code then returns success over a file it could not replace.
- Certificates.SelfSignedCertGenerator.Generate: does not model RSA, PEM, X.509 encodings, extended key usages, wildcard names or IP addresses in brackets.
- Configuration.ConfigStore.BuildWebhooks: edits values, not pointers; that the parsed template may alias the webhooks of the object is not captured.
- Configuration.ConfigStore.Ensure: deletion and foreign edits of the configurations are not modelled; other replicas are.
- GatewayController.Cluster.Reconcile: the other gateways and the recorded events are outside; a status update that reports an error has not happened.
- EventFilter.FilterLosesNothing: assumes that the lookup of the gateway in `mapNodeToRequest` succeeds (the code drops the event when it fails), does not cover load-balancer gateways, whose status differs from every spec entry, and does not model the freshness of the node list in the status.
- ServiceController.ServiceReconciler.Reconcile: node address changes do not enqueue a request, so freshness of the Endpoints after them is not claimed; a Service that exists is never compared.
- Replicas.AtMostOneWrite: assumes that every generated certificate passes the test, which `Certificates.GeneratedIsAcceptedIff` makes exact, and judges all of them at one moment; `Replicas.OneWritePerWindow` does not.
- Renewal.CAChangesOnlyWhenUnfit: speaks of Secret mode; in file mode the generator is never given the stored CA, so every renewal changes it.
- Renewal.DirectoryCall: starts from a managed (or missing) directory; one of regular files is emptied by `prepareToWrite` before the first write, so it has a gap there.
- Which of two raw paths that clean to one wins: it depends on the map order, and `CleanOf` allows either.
- Rate limiting, informers, logging, `main.go`, environment lookups, generated clients, charts and YAML.
