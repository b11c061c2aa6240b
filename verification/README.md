# Dyndynser: a verified model

Dyndynser lets machines keep their own DNS records up to date. A client signs a record with an Ed25519 key and puts the
signed JSON into an S3 bucket. A server run lists the bucket, fetches and reads each object, checks each request against
the certificates in a directory, drops its privileges, sends one batch of upserts to Route 53, and deletes the objects it
is done with. This project models that program in Dafny and proves what it guarantees, and where a guarantee the design
suggests does not hold it proves exactly what does.

The layers, from the bytes up:

- **Text** (`Text`, `Addresses`, `Json`): the string operations of the standard library, IPv4 and IPv6 text, a JSON
  reader and both JSON writers (compact and pretty).
- **The signed envelope** (`Records`, `Signing`, `SignedText`, `Validation`): the upload's schema, its canonical form
  (RFC 8785), the hexadecimal signature, and the check of one request. A signature stands for what it is a signature
  of: a function `meaning` maps 64 bytes to the key and the message they sign, or to nothing. No injectivity is
  assumed of it, so it can be satisfied by real signatures.
- **The client** (`Domain`, `Client`): the domain grammar, the record, the object key.
- **The DNS service** (`Batch`, `Xml`, `XmlWritten`, `XmlReading`, `XmlNewlines`, `XmlExtract`, `SigV4`): batches and
  what they do to a zone, the change document and a reader for it, line-end normalisation (section 2.11 of XML 1.0),
  the first-match extractor, and the headers of AWS Signature Version 4.
- **The process** (`Privileges`): credentials, the calls that change them, and the privilege drop.
- **A server run** (`Machine`, `Steps`, `Flow`, `Filtering`, `Conservation`, `PhaseOrder`, `ExitStatus`, `Outside`,
  `Server`): `Machine` is the run as an automaton over the events it causes. `Server` is the program in its own
  imperative form, with its loops, its error object and the outside as a `World` that records a trace; every method is
  proved to continue the trace by events that the automaton accepts and that carry the answers of the outside, which
  leaves one possible run. The other modules prove what holds of all traces.
- **The whole system** (`Protocol`, `NoLoss`, `Authenticity`, `Staleness`, `ZoneEffect`, `Stopping`, `RunWitnesses`):
  bucket, zone, clock, ledger of signatures, installed certificates and one server run as a transition system. Its
  steps are single events of the server, crashes and restarts at any point, clock ticks, signing, installing
  certificates, and writes of anyone to any key, who can write anything but signatures of others. Listings may show
  anything, and actions the server takes for failed may have landed. The commit goes through the change document: the
  zone gets what an XML processor reads. The state records a history for the invariants; `RunWitnesses` states the
  results on the steps of a run alone.
- **Runs that happen** (`Runs`, `Replay`, `Scenarios`, `Publication`): what one run does when nobody disturbs it. Here
  the listing is complete: over any number of pages it shows each stored key of the configured directory once. Which
  keys belong to the directory is a parameter, and the key files are any list.

## What turned out differently

- **A verified request can be lost** (`Scenarios.MissedFetchLoses`). Keys whose fetch failed are handed to `cleanup`
  together with the verified ones. A run that verifies a request and crashes, followed by a run in which fetching that
  object fails while some other request is committed, deletes the object uncommitted. `RunWitnesses.NeverLost` shows
  that the server loses one in no other way, and `NoLoss.LossExact` when it happens: a run that commits and deletes
  loses exactly those verified requests that it did not verify itself and that are in its list of failed fetches.
- **One signed time stamp can stop the server** (`Scenarios.LateStampStops`). The program's own documentation
  (README.md:219-222) says that bad requests do not stop it. Adding the age limit to `signed_at` panics when the sum
  leaves the range of `chrono::DateTime`, and panics abort. This happens exactly for requests that are authentic and
  signed that late (`Validation.CheckExact`). Such a run changes nothing (`Stopping.StoppedRunsChangeNothing`), so the
  object stays and stops every later run that checks it. All other bad requests leave the result as it is
  (`Filtering.BadRequestsDoNotDisturb`).
- **"Permanently drop privileges"** holds from effective uid 0. After an `Ok` from any other state root can be
  regained exactly where the real or the saved uid was 0 (`Privileges.RegainExact`).
- **A part of a batch can undo the rest** where two requests are about one entry, for instance a name with and without
  its final dot (`Batch.PartCanUndo`, `Batch.FixedNameExact`). Applying a part again is harmless exactly where it
  agrees with the batch on the last change of each entry (`Batch.ReapplyExact`).
- **A CR in a name or comment** is written raw into the change document, so it arrives as a line feed. Documents
  arrive as they were meant exactly where there is none (`XmlNewlines.ArrivesExact`); accepted domains never contain
  one.

## Model

| member | source | states |
|---|---|---|
| Text.TrimExact | src/config.rs:20-20 | trimming takes off white space at both ends, all of it and nothing else |
| Text.StripAllExact | src/dns/route53/aws_route53.rs:100-104 | however often the prefix stands in front, all of it goes |
| Text.AsciiLowerExact | src/dns/route53/aws_signature.rs:126-135 | letters become those of the lower-case alphabet and every other character stays |
| Addresses.V4RoundTrip | src/dns/mod.rs:45-51 | dotted quads read back as the address printed |
| Addresses.V6RoundTrip | src/dns/mod.rs:45-51 | IPv6 text (RFC 5952 form, longest run of zeros shortened, IPv4-mapped quad) reads back as the address printed |
| Addresses.V4Exact | src/dns/mod.rs:45-51 | exactly the printed dotted quads are read, each as its address |
| Addresses.V6Form | src/dns/mod.rs:45-51 | mapped addresses show their quad; otherwise the first longest run of two or more zero groups becomes `::`, and nothing else is shortened (RFC 5952) |
| Addresses.GroupForm | src/dns/mod.rs:45-51 | groups are in lower-case hexadecimal without leading zeros |
| Json.IntegerRoundTrip | src/signatures.rs:70-74 | printed integers are JSON numbers and read back as the same integer |
| Json.ParseEscapedText | src/signatures.rs:85-109 | escaped strings, whatever their characters, read back up to their closing quote |
| Json.EscapeForm | src/signatures.rs:91-94 | short escapes where JSON has them, `\u00` and two lower-case digits for other controls, all else unescaped |
| Json.ParseWritten | src/signatures.rs:85-109 | compact and pretty text of any value reads back as that value, and the reader stops exactly behind it |
| Json.DocumentRoundTrip | src/signatures.rs:85-109 | a whole document, compact or pretty, reads back as the value written, with blanks around it; anything else behind it is refused |
| Signing.HexRoundTrip | src/signatures.rs:24-34 | decoding undoes the hexadecimal form of a signature |
| Signing.HexForm | src/signatures.rs:24-34 | two lower-case digits for each byte |
| Signing.HexDecodeDomain | src/signatures.rs:43-53 | exactly even-length strings of hex digits of either case decode, to half as many bytes |
| Signing.SignatureDomain | src/signatures.rs:43-53 | exactly strings of 128 hex digits are accepted as signatures |
| Signing.CanonicalOrder | src/signatures.rs:91-94 | the canonical JSON is the same value as the serialised envelope with the members of every object in ascending order |
| Signing.MemberExact | src/signatures.rs:62-74 | a member is found iff exactly one has its name, wherever it stands |
| SignedText.CanonicalWritten | src/signatures.rs:91-94 | the signed bytes, written out: members in order of name and no blanks |
| SignedText.UploadWritten | src/signatures.rs:96-107 | the uploaded text, written out line by line |
| Signing.UploadRoundTrip | src/signatures.rs:85-109 | what the server reads from the pretty-printed upload is the envelope and signature the client put in |
| Signing.CanonicalRoundTrip | src/signatures.rs:91-94 | the signed text determines the envelope, for time stamps below 2^53 in size |
| Signing.CanonicalInjective | src/signatures.rs:91-94 | distinct envelopes with such time stamps never share signed bytes |
| Validation.FirstMatchExact | src/server.rs:351-368 | the certificate used is the first one with the payload's name, and none is used only where none has it |
| Validation.CheckExact | src/server.rs:52-93 | each verdict with its condition: accepted iff signed over this envelope by the key of the first certificate for its name, signed at or after -8334601228800 s, with age limit and 15 seconds added at most 8210266876799 s, and the clock not past that sum; too old iff only the last fails; bad time stamp, no matching key and abort iff likewise |
| Validation.SkipVerifyAccepts | src/server.rs:344-389 | with `insecure_skip_verify` every request is accepted |
| Validation.SignThenCheck | src/server.rs:344-389 | an uploaded record signed with the key of the first matching certificate is read back and accepted until its deadline |
| Validation.StaleForever | src/server.rs:67-83 | too old now is not accepted, and does not abort, at any later time with any certificates |
| Validation.OrderOfCertificates | src/server.rs:351-368 | with unique common names a permutation of the certificates finds the same one |
| Validation.VerdictIgnoresOrder | src/server.rs:344-389 | so it changes no verdict |
| Validation.ValidMeansThisEnvelope | src/server.rs:58-84 | an accepted request's signature was made over this envelope and no other (of those with time stamps below 2^53), with the key of the certificate for its name |
| Domain.ParseExact | src/config.rs:19-57 | accepted iff the trimmed, lowercased text is in the grammar of labels, dots and an optional final dot, with a last label that is not all digits, and only that text is returned |
| Domain.RefusedExact | src/config.rs:19-57 | why a name is refused: its length, what is wrong with its first bad label, or a last label of digits |
| Domain.AcceptedFitsWire | src/config.rs:19-57 | the labels joined give the name back; each has 1 to 63 octets and the whole encodes in at most 255, one less with a final dot |
| Domain.ParseAgain | src/config.rs:19-57 | an accepted name is accepted again, unchanged |
| Client.KeyNamesDomain | src/client.rs:109-113 | the object key is the directory, a slash, the domain and `.ddns.json`; it passes the server's suffix filter and gives the domain back |
| Client.KeysCollide | src/client.rs:94-113 | two command lines share an object key iff their domains agree after trimming and lowercasing |
| Batch.LastChangeWins | src/server.rs:394-429 | after a batch each entry has the value of its last change; all others are untouched |
| Batch.LastForExact | src/dns/mod.rs:26-30 | that change is the one at the last place with the entry's key, if there is one |
| Batch.ReapplyExact | src/server.rs:394-429 | changes within the batch's entries leave the committed zone alone iff they agree with the batch on every entry |
| Batch.ReapplyWhole | src/dns/mod.rs:26-30 | committing a batch twice is committing it once |
| Batch.ReapplyPart | src/server.rs:394-429 | with distinct keys any part of the batch, reordered or repeated, changes nothing |
| Batch.PartCanUndo | src/server.rs:394-429 | for any two changes of one entry that differ, repeating the first alone changes the zone |
| Batch.FixedNameExact | src/server.rs:405-415 | two names meet after the dot is added iff they are equal or differ in the final dot only; the result always ends in a dot |
| Batch.BuildChanges | src/server.rs:394-429 | the loop gives one upsert for each request, in order, with the dot added where it is missing, and TTL and addresses as they are |
| Xml.XmlEscape | src/dns/route53/aws_route53.rs:191-208 | both branches give the escaped text |
| Xml.EscapeRoundTrip | src/dns/route53/aws_route53.rs:191-208 | escaping can be undone and leaves no angle bracket |
| Xml.BuildChangeXml | src/dns/route53/aws_route53.rs:136-189 | the nested loops write the document of this comment and these changes |
| XmlWritten.DocumentWritten | src/dns/route53/aws_route53.rs:136-189 | the document, line by line, for any comment and any changes |
| Xml.WriteRecord | src/dns/route53/aws_route53.rs:157-181 | one record set, appended to what is there |
| Xml.WriteChanges | src/dns/route53/aws_route53.rs:152-183 | all changes, appended to what is there |
| XmlReading.DocumentRoundTrip | src/dns/route53/aws_route53.rs:136-189 | a reader of the request grammar recovers the comment and every change: name, type, TTL and all addresses in order |
| XmlReading.DocumentInjective | src/dns/route53/aws_route53.rs:136-189 | different batches never share a document |
| XmlNewlines.NormalizeExact | src/dns/route53/aws_route53.rs:191-208 | line-end normalisation leaves no CR and changes text iff it has one |
| XmlNewlines.NormalizeLaws | src/dns/route53/aws_route53.rs:191-208 | wherever it stands, CR LF becomes one LF, and so does a CR without a LF behind it |
| XmlNewlines.ReadNormalized | src/dns/route53/aws_route53.rs:136-189 | an XML processor reads the batch with the line ends of names and comment normalised, and nothing else changed |
| XmlNewlines.ArrivesExact | src/dns/route53/aws_route53.rs:136-189 | the batch arrives as meant iff no name and no comment holds a CR |
| XmlExtract.ExtractExact | src/dns/route53/aws_route53.rs:212-218 | for any text: the trimmed text between the first opening tag and the first closing tag behind it, and nothing iff there is no such pair |
| XmlExtract.NothingToExtract | src/dns/route53/aws_route53.rs:136-218 | a tag that starts like none of the document's is never found, whatever the names and the comment contain |
| XmlExtract.ResponseTagsAbsent | src/dns/route53/aws_route53.rs:124-132 | `Id` and `Status` are not found in any request document |
| XmlExtract.ExtractFirstName | src/dns/route53/aws_route53.rs:136-218 | `Name` gives the trimmed escaped name of the first change, through any comment |
| XmlExtract.ZoneIdSpellings | src/dns/route53/aws_route53.rs:100-104 | the three documented spellings of a zone id lead to one request path, the one with the bare id |
| SigV4.InsertExact | src/dns/route53/aws_signature.rs:42-55 | inserting keeps the map sorted, sets one key and leaves all other entries |
| SigV4.FoldNames | src/dns/route53/aws_signature.rs:67-76 | the fold gives the names joined by semicolons |
| SigV4.AwsSigv4Headers | src/dns/route53/aws_signature.rs:24-123 | for all combinations of body and token: the headers, the canonical request, the string to sign and the authorization written out; the signature is over the string to sign with the four-step key; readers of these texts find access key, scope, name list and signature, the hash of the canonical request, and in it method, path, query, every header sent and the hash of the body |
| SigV4.BaseSorted | src/dns/route53/aws_signature.rs:42-55 | the signed names are strictly ascending and all come after `authorization` |
| SigV4.CanonicalRoundTrip | src/dns/route53/aws_signature.rs:60-88 | method, path, query, names with trimmed values, name list and hash are read back from the canonical request; the blank line before the name list is found even where the query line is blank |
| SigV4.SentIsSigned | src/dns/route53/aws_signature.rs:60-122 | the headers sent are the signed list and `authorization`; the list splits into exactly these names; the hashed text gives back every value |
| SigV4.StringToSignRoundTrip | src/dns/route53/aws_signature.rs:93-100 | the string to sign splits into algorithm, time stamp, scope and hash |
| SigV4.AuthorizationRoundTrip | src/dns/route53/aws_signature.rs:111-120 | a reader of the authorization value finds access key, scope, signed names and signature |
| SigV4.ScopeRoundTrip | src/dns/route53/aws_signature.rs:93-93 | the scope splits into date, region and service |
| SigV4.ToHeaderMap | src/dns/route53/aws_signature.rs:126-135 | nothing iff some name is no token of 1 to 65535 characters or some value holds more than visible ASCII, blanks and tabs; otherwise under each lowercased name the value of the last entry with that name |
| SigV4.HeaderForLast | src/dns/route53/aws_signature.rs:126-135 | nothing under a name iff no entry has it in any case, else the value of the last that has |
| SigV4.HeaderForExact | src/dns/route53/aws_signature.rs:126-135 | for sorted lower-case names, as the signed headers have, that is exactly the given entries |
| Privileges.Process.MaybeDropPrivileges | src/unix.rs:8-45 | nothing happens unless root; from root it goes to the named user, or to `nobody` where there is none of that name, and succeeds iff that user exists and is not root; then all ids are that user's and the groups are empty |
| Privileges.NothingGained | src/unix.rs:8-45 | without root among its uids a process gains no id by any sequence of calls, and keeps its groups |
| Privileges.DropIsPermanent | src/unix.rs:28-41 | after a drop from root to a user, which is not root, every later sequence of calls leaves all ids at that user's and the groups empty |
| Privileges.RegainExact | src/unix.rs:9-14 | after any `Ok`, root can be regained iff the effective uid was not 0 but the real or saved uid was |
| Privileges.UidFirstKeepsGroups | src/unix.rs:31-33 | with the uid given up first, no sequence of calls clears the groups any more |
| Flow.StepFlows | src/server.rs:475-594 | for each event: what it adds to or takes from unchecked requests, verified requests, failed and unreadable keys and certificates, and in which state it is possible |
| Flow.CertsAreRead | src/server.rs:234-284 | requests are checked against exactly the certificates read in this run, in the order read |
| Flow.OnlyFetched | src/server.rs:475-594 | only what was fetched in a run is checked or verified in it |
| Flow.SkipVerifyTakesAll | src/server.rs:506-541 | with `insecure_skip_verify` no key file is read and every request fetched and read gets through its check |
| Filtering.SelectExact | src/server.rs:290-341 | the verified requests are those at exactly the places whose check passes, in ascending order |
| Filtering.SelectConcat | src/server.rs:290-341 | the loop distributes over concatenation |
| Filtering.BadRequestsDoNotDisturb | src/server.rs:301-338 | two loops, one with failing requests among the others: if none of them aborts, both come to the drop with the same verified requests and the same batch; if one aborts, the loop that meets it ends the process there |
| Filtering.SelectIgnoresOrder | src/server.rs:290-341 | permuting certificates with unique names leaves them as they are |
| Filtering.LoopIsFilter | src/server.rs:301-338 | the checks of a run give exactly the filter's work and error lists, up to the first check that aborts, which ends the process |
| Filtering.WholeLoop | src/server.rs:301-338 | the loop comes to the drop with the filter's work iff no check aborts, and otherwise ends the process within its checks |
| Conservation.StepConserves | src/server.rs:475-594 | a step puts each fetched key in one list and takes no key out of any |
| Conservation.Conservation | src/server.rs:144-227 | over any number of pages, each fetch is in one list, and each listed key is fetched, skipped or still pending, as often as it was listed |
| Conservation.SuffixDecides | src/server.rs:171-178 | only keys with the suffix are fetched and only others are skipped |
| Conservation.FourLists | src/server.rs:301-338 | after the checks, verified, rejected, failed and unreadable together hold each key with the suffix as often as it was listed, and no other key |
| Conservation.DeleteKeysExact | src/server.rs:546-561 | with distinct keys, the keys for deletion are the listed ones with the suffix that were not rejected, once each |
| PhaseOrder.RunsAreShaped | src/server.rs:475-594 | every run is checks, then drop, then commit, then deletes in the order of the list, with the errors that this implies |
| PhaseOrder.PhaseOrder | src/server.rs:518-589 | each event is explained: reads come before the drop, the commit directly after a successful drop with one change for each verified request and at least one, each delete after a successful commit |
| PhaseOrder.DryRunsOnlyLook | src/server.rs:563-573 | dry runs neither commit nor delete |
| PhaseOrder.SuccessExact | src/server.rs:616-666 | a run that committed returns success iff the five lists were empty before its deletes and every delete was answered with a status from 200 to 299 |
| PhaseOrder.FailedDeletesExact | src/server.rs:448-471 | the failed deletions are those at exactly the places without a status from 200 to 299, in order |
| ExitStatus.ListsTellFailures | src/server.rs:475-666 | the five lists are all empty iff no fetch, no reading of an upload, no key file, no check and no deletion has failed |
| ExitStatus.ExitExact | src/server.rs:475-666 | a run that has ended returned success iff its last event was no fatal one (failed listing, unreadable key directory or key file, failed drop, failed commit) and, if it committed, nothing had failed |
| Outside.OneEvent | src/server.rs:475-594 | in each state one event carries the answer of the outside |
| Outside.OnlyRun | src/server.rs:475-594 | against one outside the automaton has one completed run |
| Server.FetchDdnsJsonsFromS3 | src/server.rs:128-228 | the page loop and its inner loop leave a trace that the automaton accepts, that carries the answers of the outside, and whose state has exactly these requests and errors |
| Server.GetPublicKeyMap | src/server.rs:234-284 | the same for the key files, continuing the trace: malformed ones are recorded, an unreadable one ends the run |
| Server.ValidateUnverifiedDnsRequests | src/server.rs:290-341 | continuing the trace: the verified requests are the selection by check at the times the clock gave, with the errors of the rest |
| Server.Cleanup | src/server.rs:448-471 | continuing the trace by one delete for each key, in order, with the answers of the outside; it adds to the errors exactly the keys at the places where the answer is no status from 200 to 299, in order |
| Server.CommitAndCleanUp | src/server.rs:543-593 | continuing the trace by the commit of the whole batch and then the deletes, to the end of the run |
| Server.ServerErrors.PrintSummary | src/server.rs:616-666 | success iff the five lists are empty |
| Server.HandleServer | src/server.rs:475-594 | the whole process leaves the completed run against this outside, of which there is one; its exit is that run's; whatever it does after the drop it does as the configured user, or `nobody`, if it was started as root |
| Protocol.ArrivedExact | src/server.rs:432-445 | the changes that reach the zone through the document are the batch with line ends normalised |
| Protocol.AlwaysTraced | src/server.rs:475-594 | at every point of every run of the system the current server trace is one of the automaton's |
| NoLoss.AlwaysSafe | src/server.rs:543-589 | an invariant of every run: what is verified and not committed, replaced or forfeited is in the bucket, and what a deleting run verified is committed |
| NoLoss.NothingLost | src/server.rs:543-589 | at every point of every run, with crashes anywhere: each verified request is in the bucket or committed, unless it was replaced from outside or a fetch of its key failed while the object was there |
| NoLoss.LossExact | src/server.rs:546-589 | a run that commits and deletes loses, of the verified and still stored requests, exactly those that it did not verify itself and whose fetch it counts as failed; the condition is read off its lists before the commit |
| NoLoss.LossGuard | src/server.rs:546-561 | before the commit, the key of such a request that the run did not verify is up for deletion iff it is in the list of failed fetches |
| NoLoss.ReliableFetchesLoseNothing | src/server.rs:543-589 | without such fetches and writes each verified request is in the bucket or committed |
| NoLoss.CommittedBeforeDeleted | src/server.rs:575-589 | while a run deletes, all it verified is committed |
| RunWitnesses.NeverLost | src/server.rs:543-589 | in terms of the steps of a run alone: what the server counts as verified at some point is in the bucket or has been committed at every later point, unless it was overwritten or removed from outside after the server had fetched it, or one and the same server run failed to fetch its key although the object was there and then removed the object |
| Runs.RunEnds | src/server.rs:475-594 | the run over any pages, objects and key files, written out event by event, is one of the automaton and ends as it should: early where nothing is found or no certificate is read, aborted at the first check that aborts, otherwise finished |
| Runs.FoundExact | src/server.rs:144-227 | the requests it finds are exactly the listed keys with the suffix that are served and can be read |
| Replay.Replay | src/server.rs:475-594 | a run that the outside can answer event by event can happen in the system, with its effects on bucket, zone and history |
| Scenarios.UndisturbedRun | src/server.rs:475-594 | from every state without a running server, a run that lists the whole directory and meets no failing call publishes all stored requests that pass, in the order of the listing, and removes their objects and the unreadable ones; where nothing passes or a check aborts it changes nothing |
| Scenarios.UndisturbedEnd | src/server.rs:475-594 | with certificates it ends aborted iff the check of some stored request aborts, and finished otherwise |
| Scenarios.LateStampStops | src/server.rs:67-75 | an authentic upload dated within the age limit of the end of the clock's range stops the run, which changes nothing, so that the next run meets it again |
| Scenarios.LastSecondStops | src/server.rs:67-75 | for instance an upload signed for the last second of the clock |
| Scenarios.MissedFetchLoses | src/server.rs:546-561 | for any two stored requests that pass, of any domains and whatever else is stored: with complete listings and no writes from outside, a crash after the checks and then a run in which the fetch of the first fails lose the first and commit the second |
| Stopping.StopsExact | src/server.rs:58-84 | whether a check aborts does not depend on the time of the check |
| Stopping.NeverPastChecks | src/server.rs:290-341 | a run that has fetched a request that stops it under the certificates it has read never gets past its checks |
| Stopping.StoppedRunsOnlyLook | src/server.rs:475-594 | such a run has not dropped, committed or deleted anything, even once it is over |
| Stopping.StoppedRunsChangeNothing | src/server.rs:475-594 | and that holds at every point of every run of the system |
| Authenticity.AcceptedIsGenuine | src/server.rs:344-389 | whatever is accepted has a ledger entry for this very envelope with the key of the first matching certificate, an installed one, and was in time |
| Authenticity.CommitExplained | src/server.rs:394-429 | each entry after a commit is one of before or set by a verified request |
| Authenticity.AlwaysHonest | src/server.rs:475-594 | an invariant of every run: bucket and requests unforged, certificates installed, acceptances genuine, zone explained |
| Authenticity.ZoneIsAuthentic | src/server.rs:344-429 | at every point of every run each zone entry is an initial one or has the addresses, TTL, type and dotted name of an envelope signed by the certified key and in time when checked |
| Authenticity.PlainNames | src/server.rs:405-415 | without a CR in it the name in the zone is the signed name, but for the final dot |
| RunWitnesses.AcceptedInRun | src/server.rs:301-338 | each acceptance is a check in the run that passed, at its time, with the certificates read by then |
| RunWitnesses.PassedWasSigned | src/server.rs:344-389 | whatever passes a check was signed before in the run, as it stands, with the key of the first certificate for its name, which was installed before, and is in time |
| RunWitnesses.ZoneWasChecked | src/server.rs:394-429 | each zone entry that is not as in the beginning has the name, type, TTL and addresses of a request that passed a check in the run |
| Staleness.AlwaysTimely | src/server.rs:67-83 | an invariant of every run: envelopes found too old are past, and no current verified request is one found before the run |
| Staleness.NeverAcceptedAgain | src/server.rs:67-83 | an envelope once found too old is never accepted again, in whatever object it comes and whatever is installed |
| Staleness.NoStaleCommit | src/server.rs:301-338 | no batch of a later run holds a change from it |
| RunWitnesses.TooOldStays | src/server.rs:67-83 | after a check in a run that found an envelope too old, no check of that envelope passes or aborts, in whatever object and with whatever certificates |
| ZoneEffect.BatchMeans | src/server.rs:394-429 | a batch sets each entry to the last verified request about it and leaves all others alone |
| ZoneEffect.CommitMeans | src/server.rs:575-577 | a commit event that lands does exactly that with the requests verified in this run |
| ZoneEffect.RetryChangesNothing | src/server.rs:543-589 | after a crash between commit and cleanup, verifying and committing any of the same requests again changes nothing, if no two are about one entry |
| ZoneEffect.RetryAllChangesNothing | src/server.rs:543-589 | committing all of them again changes nothing in any case |
| Publication.SignedCanBeWritten | src/signatures.rs:85-109 | a signed upload carries no signature but its signer's |
| Publication.BatchSets | src/server.rs:394-429 | the batch of some requests sets each entry to the last of them about it and no other entry |
| Publication.ClientIsPublished | src/client.rs:85-113 | from every state without a running server, whatever is stored: a client with an accepted domain and the key of the first certificate for it uploads in time, and an undisturbed run verifies its request and removes its object; the zone is set by all requests that pass; the entry of its lowercased, trimmed and dotted domain and address type has the configured TTL, or 300, and exactly its one address iff the last of them about the entry says so |

## Left out

- Text stands for bytes: UTF-8 encoding and decoding, and the rejection of invalid UTF-8, are not modelled.
- Ed25519, SHA-256 and HMAC are symbolic; X.509, PEM, OpenSSH and PKCS#8 decoding (src/keys.rs) is one of three outcomes for a file.
- Signing.CanonicalInjective: only for time stamps below 2^53 in size, since RFC 8785 prints larger ones as the nearest double, which is not modelled. Such time stamps are outside the range of the clock, so the check rejects the request for one reason or another, and the system properties need no assumption about signatures over them.
- HTTP, the S3 and Route 53 clients, listing by prefix and delimiter, the filtering of the key directory by file type and extension, logging, standard output, command line and configuration, the query for the machine's address: the answers of the outside are arbitrary.
- Route 53's own validation of a batch (it may refuse two changes of one entry): a refused batch is a failed commit.
- Page chains are finite; the program does not bound them.
- Failures to construct clients (invalid region, missing credentials) before the first request, and the same failure at the start of `cleanup`.
- One server run at a time. Two servers on one bucket are not modelled.
- `insecure_skip_verify`: the system properties about signatures and age assume it is off; with it on there is no more to say than that every request that could be read gets through.
- The credential calls have the semantics of Linux and fail only for lack of permission; `setuid` on FreeBSD differs.
- The user database answers once per name in a run.
- The JSON reader is that of whole values: the depth limit of `serde_json` and its laxer look at strings in members it ignores are not modelled.
- NoLoss.NothingLost: a request whose object was overwritten or removed from outside after it was fetched counts as replaced from then on, and nothing more is claimed for it, even if the same object is written again.
- Scenarios.UndisturbedRun: a run that meets no failing call and no other actor, and whose checks all see one time of the clock; with failing calls `NoLoss` and `Conservation` say what is kept.
- Newest-wins between requests, replay of accepted envelopes, signatures from the future, and writes by a client between the server's fetch and its delete are not decided by the program.
- Control characters that XML 1.0 forbids: the program writes them raw, and the reader here accepts them.
- The messages of errors and the texts that are printed.
