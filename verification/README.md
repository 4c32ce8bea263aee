# Verification of the transfer, token and release machinery

A Dafny model of the parts of the Databricks SDK for Python that move bytes, keep tokens fresh and release
packages, with proofs of what they promise. `dafny verify dfyconfig.toml` checks all of it.

| file | models |
|---|---|
| `Common.dfy` | byte strings, streams that read in full or short |
| `Retries.dfy` | the deadline-and-backoff loop, and which replies of a cloud storage are retried |
| `BaseClient.dfy` | the retries of a workspace request and the rewinding of its body |
| `ResumableUpload.dfy` | the sliding-window upload, against a session that may keep any part of a chunk |
| `MultipartUpload.dfy` | the upload in parts, under URLs that come in batches and expire |
| `FilesUpload.dfy` | the choice between the three kinds of upload |
| `Download.dfy` | the iterator that re-opens a failed download, and the stream that cuts chunks to size |
| `TokenRefresh.dfy` | the token source with background refreshes, over all interleavings |
| `DataPlane.dfy` | the double-checked cache of token sources, over all interleavings of threads |
| `Tagging.dfy` | the release script, interrupted anywhere and run again |
| `RoundTrip.dfy` | the marshaller that redacts and truncates logged JSON |
| `WorkspaceList.dfy` | the breadth-first listing |
| `Casing.dfy` | the name parser and its printers |

The remote sides (`ResumableUpload.Session`, `MultipartUpload.Session`, `Download.RemoteFile`,
`Tagging.GitHubRepo`) are classes whose methods choose freely among all that their contracts allow: which
prefix of a chunk is kept, which replies are lost, when a URL expires, which calls fail. Results hold for
every such choice. Each of these classes also records what it answered, and the clients are proved to fail
only when these answers call for it, so that giving up early is no way to meet a contract. Time is counted in
whole microseconds and read from a clock that does not run backwards; a request takes at least one of them.

## Where the code does not do what one would expect

These are facts about the code, which the model follows, with what holds instead.

- A resumable upload with a chunk size of one byte never completes if there are two bytes or more. A 308
  reply that confirms only the first byte has the offset 0, which the code takes for no offset at all, so it
  sends that byte again until the session expires (`databricks/sdk/mixins/files.py:1150-1174`). Otherwise a
  session without faults completes: `ResumableUpload.PerformResumableUpload` proves both directions, and
  `ResumableUpload.FirstByteCountsAsNone` shows the reply.
- Six statuses are called retryable, but a response with one of them is retried only if it is 429 or 503; the
  others become an error that the retry loop raises at once (`databricks/sdk/mixins/files.py:1292-1312`,
  against the docstring there): `Retries.OnlyThrottlingIsRetried`.
- `process` of the release script may complete with all versions of a release untagged: if a push takes effect
  but is reported as failed, the next attempt finds no notes and hands on no tags (`tagging.py:422-460`).
  If the fetch before that attempt fails as well, which the script does not look at (`tagging.py:407`), the
  checkout still has the notes and the attempt makes the same release a second time.
  `Tagging.MisreportedPushLosesTags` and `Tagging.StaleCheckoutReleasesAgain` show the two, and
  `Tagging.CompletedRunCondition` says exactly when a completed run has made one release and tagged it.
- A slow background token refresh can put an older token in place of a newer one, for which it takes no second
  one: `TokenRefresh.SlowRefreshRegresses` gives a run. A commit replaces another token than the one it was
  started for exactly if some refresh has succeeded since it was submitted (`TokenRefresh.OverwriteCondition`);
  it never does as long as no call finds the token expired while a refresh is on its way
  (`TokenRefresh.NothingOverwritten`).
- Two background refreshes can be on their way at once: `TokenRefresh.RefreshesOverlap` gives a run, and
  `TokenRefresh.OverlapCondition` says when.
- Different pairs of endpoint and details share a cached token source if a colon can be read in two places:
  `DataPlane.SharedKeys` says when.
- A cut string announces bytes but is cut after so many characters, so the two add up only for ASCII text:
  `RoundTrip.CutStringAddsUp` says when, `RoundTrip.CutStringCanOverstate` gives a string for every limit.
- A `read` that raises loses all that it had taken, and all later reads see an end of the file. It loses
  nothing exactly if the buffer was empty and no chunk came during the read (`Download.StreamingResponse.Read`),
  so one that raises on a non-empty buffer always does (`Download.ReadAgain`).
- An empty stream goes through a resumable upload if the least size for that is configured as 0; then its one
  range is `bytes 0--1/0`, which is not valid. `ResumableUpload.OutgoingIsValid` shows that an upload's ranges
  are all valid exactly if its content is not empty.

## Model

| member | source | states |
|---|---|---|
| Retries.Retried | databricks/sdk/retries.py:30-65 | attempts start before the deadline and after the pause asked for; each pause asked for is that of the reply or min(10, attempt) seconds, and less than a second more; the result is the first success, the first error not worth a retry, or a timeout; with a rewind hook all attempts send the same bytes |
| Retries.PauseAfter | databricks/sdk/retries.py:38-63 | which failures are retried, and how long a pause is asked for |
| Retries.AttemptsFollowBackoff | databricks/sdk/retries.py:40-41 | attempt k + 1 starts no earlier than min(10, 1) + ... + min(10, k) seconds after the start of the loop |
| Retries.BackoffClosedForm | databricks/sdk/retries.py:40-41 | that sum in closed form, below and above ten attempts |
| Retries.AttemptsAreBounded | databricks/sdk/retries.py:31-65 | the timeout bounds the number of attempts |
| Retries.ThrottledAttemptsWait | databricks/sdk/errors/customizer.py:22-50 | after a 429 or 503 the next attempt waits as long as the reply asks for, or a second |
| Retries.Request.Perform | databricks/sdk/mixins/files.py:1292-1301 | an attempt sends the rest of the body; of an idempotent operation six statuses become errors, and just those for throttling carry the pause that the reply asks for |
| BaseClient.Do | databricks/sdk/_base_client.py:164-206 | every attempt of a request sends the same bytes; a body that cannot be rewound gets one attempt, and the result is that of the last attempt |
| ResumableUpload.Session.Put | databricks/sdk/mixins/files.py:1106-1112 | the assumption on a faithful session: it keeps some prefix of the new bytes of a chunk, whatever becomes of the reply, and tells the truth in a 308 or success |
| ResumableUpload.Session.QueryStatus | databricks/sdk/mixins/files.py:1089-1103 | a status query hands back the truth about a faithful session, nothing, or an error, and never a retryable status |
| ResumableUpload.FillChunk | databricks/sdk/mixins/files.py:1066-1078 | a chunk is the content from the offset on, a full chunk size of it unless the content ends before, and announces a total exactly if it ends the content; no byte is dropped |
| ResumableUpload.SendChunk | databricks/sdk/mixins/files.py:1105-1139 | which reply decides what comes next; a status query follows exactly the interruptions that may be borne; the counter is the number of interruptions in a row |
| ResumableUpload.InterpretExplains | databricks/sdk/mixins/files.py:1141-1186 | for every pair of answers to a chunk and to the status query, which result ends the upload or that it goes on: AlreadyExists exactly for a 412 without overwriting, an HTTP error with the status of the deciding reply, an unexpected offset exactly for a 308 that the chunk does not explain |
| ResumableUpload.TakesPrefix | databricks/sdk/mixins/files.py:1066-1068 | a faithful session that holds a prefix of the content still does after any chunk |
| ResumableUpload.StaysAligned | databricks/sdk/mixins/files.py:1150-1175 | an honest 308 is never rejected and client and session stay aligned: the next offset is what the session stores, or 0 if that is one byte |
| ResumableUpload.OutgoingIsValid | databricks/sdk/mixins/files.py:1084-1087 | all Content-Ranges of an upload are valid if and only if its content is not empty: first <= last < complete length (section 14.4 of RFC 9110), with the true length announced exactly at the end |
| ResumableUpload.StepUsed | databricks/sdk/mixins/files.py:1120-1139 | every 308 uses up a byte, a stall of the session or an interruption, so the loop ends |
| ResumableUpload.HonestTurn | databricks/sdk/mixins/files.py:1141-1186 | one pass of the loop either restores its invariant or ends with a right verdict |
| ResumableUpload.BurstsExtend | databricks/sdk/mixins/files.py:1120-1139 | the counter of interruptions bounds every run of interrupted chunk requests |
| ResumableUpload.FailureHasCause | databricks/sdk/mixins/files.py:1120-1186 | an upload to a faithful session fails only for a reply not worth a retry, too many interruptions in a row, or a failed status query |
| ResumableUpload.RequestBoundClosedForm | databricks/sdk/mixins/files.py:1060-1175 | the bound on chunk requests is (bytes + stalls + 1) * (max retries + 1) |
| ResumableUpload.TransferChunks | databricks/sdk/mixins/files.py:1049-1175 | if the upload is done the session holds exactly the content; every chunk carries the bytes of its range; interruptions are borne max retries times in a row; the number of requests is bounded; without faults it is done exactly if the chunk size is not 1 or there is at most one byte; the result is the one that the last reply calls for |
| ResumableUpload.PerformResumableUpload | databricks/sdk/mixins/files.py:1049-1197 | the same for the whole upload, which aborts the session once if and only if it fails |
| MultipartUpload.Session.PutPart | databricks/sdk/mixins/files.py:874-888 | a part that was put successfully is stored whole under its number, however many attempts it took |
| MultipartUpload.FillBuffer | databricks/sdk/mixins/files.py:947-958 | buffer and unread stream stay the same together; an empty result means the end of the stream, even if it reads short |
| MultipartUpload.SortedItemsSorts | databricks/sdk/mixins/files.py:929-932 | the list for completion has exactly the recorded parts, in strictly increasing order |
| MultipartUpload.StoredExtends | databricks/sdk/mixins/files.py:890-902 | after a success the stored parts make up the content up to the new offset |
| MultipartUpload.StoredSkips | databricks/sdk/mixins/files.py:904-908 | after an expired URL the part number is skipped and nothing is lost |
| MultipartUpload.PartEnds | databricks/sdk/mixins/files.py:904-917 | which fate of a part ends the upload, and with which error |
| MultipartUpload.RecordedIsListed | databricks/sdk/mixins/files.py:929-932 | the list for completion has just the parts that were stored |
| MultipartUpload.PartCountRoundsUp | databricks/sdk/mixins/files.py:869-869 | the number of parts of n bytes is n divided by the chunk size, rounded up |
| MultipartUpload.UploadPart | databricks/sdk/mixins/files.py:869-919 | a stored part is recorded and the bytes after it are next, an expired URL is skipped and its bytes are next, and anything else ends the upload; the invariant on recorded bytes, sizes and numbers is kept |
| MultipartUpload.UploadingIsNumbered | databricks/sdk/mixins/files.py:823-919 | part requests use the numbers 1, 2, ... without a gap, at most (max retries + 1) for each part of the content |
| MultipartUpload.UploadNext | databricks/sdk/mixins/files.py:855-919 | one pass of the inner loop sends the next chunk, or finds that the whole content has been sent |
| MultipartUpload.PerformMultipartUpload | databricks/sdk/mixins/files.py:804-944 | a completed upload assembles exactly the content from just the parts that were stored, in increasing order, all full but the last if the stream reads in full; it ends; it fails at once for a refused part or a failed request, and else only for max retries + 1 expired URLs in a row; the assertion on part numbers never fails for consecutive numbers |
| FilesUpload.Workspace.Put | databricks/sdk/mixins/files.py:745-751 | a small file is stored as it is, whatever retries its request took |
| FilesUpload.Upload | databricks/sdk/mixins/files.py:730-790 | size and server choose the kind of upload, or the error for a reply without a usable session token; whichever succeeds leaves the file equal to the stream; a failed multipart or resumable upload is aborted once |
| Download.ResilientIterator.Recover | databricks/sdk/mixins/files.py:1446-1467 | re-opens at the offset in the same version of the file exactly if neither limit is used up, the stamp is known or nothing was read, and the server opens it; it is counted |
| Download.ResilientIterator.Next | databricks/sdk/mixins/files.py:1469-1487 | gives the next bytes of the file whatever connections fail; total recoveries stay within limit * chunks + current ones; it raises a network error only if a limit is used up, the stamp is missing or the server refused; nothing is raised while what goes wrong is within the limits; it ends |
| Download.StreamingResponse.NextPiece | databricks/sdk/_base_client.py:369-379 | one pass of a read takes the bytes at the caller's position |
| Download.StreamingResponse.Read | databricks/sdk/_base_client.py:359-380 | a read gives what a plain read of the file at the caller's position gives, across chunk boundaries and failures; one that raises loses the buffer and every chunk that came during it, which is nothing if and only if there was neither |
| Download.ReadAll | databricks/sdk/_base_client.py:359-380 | any sequence of reads gives the consecutive slices of one version of the file that plain reads give, up to the first that raises, and all after that give nothing; none raises if no more connections drop than the limits allow |
| Download.ReadAgain | databricks/sdk/_base_client.py:359-380 | what a raising read on a non-empty buffer loses is lost for good |
| Download.ReadsAreConsecutive | databricks/sdk/_base_client.py:359-380 | the slices of such a sequence together are the bytes asked for |
| Download.WantedIsAllOrTheSum | databricks/sdk/_base_client.py:359-380 | those are all bytes left after one read of everything, and else as many as the sizes add up to, if there are |
| TokenRefresh.Refreshable.GetToken | databricks/sdk/oauth.py:257-309 | the call, with its fields updated in place, is the step of the state machine |
| TokenRefresh.Refreshable.CommitBackground | databricks/sdk/oauth.py:314-331 | a background refresh commits as the state machine says |
| TokenRefresh.StateCondition | databricks/sdk/oauth.py:280-292 | when a token counts as expired or stale: 40 seconds before its expiry, and by the time it has left |
| TokenRefresh.RunsAreConsistent | databricks/sdk/oauth.py:257-336 | over all interleavings the flag stands for a submitted refresh, and those in flight exceed it at most by the calls that cleared it early |
| TokenRefresh.SubmissionCondition | databricks/sdk/oauth.py:264-336 | a call submits a refresh exactly if the token is stale and neither flag is set, and hands out the stale token |
| TokenRefresh.OneRefreshWithoutReset | databricks/sdk/oauth.py:257-336 | without such a call at most one refresh is in flight, exactly while the flag is set, and it replaces the token that made it start |
| TokenRefresh.OverlapCondition | databricks/sdk/oauth.py:294-336 | when a second refresh is submitted while one is in flight |
| TokenRefresh.RefreshesOverlap | databricks/sdk/oauth.py:294-336 | a run in which that happens |
| TokenRefresh.SerialCountsStores | databricks/sdk/oauth.py:307-331 | over any run, which token is in place and how many have been put there |
| TokenRefresh.OverwriteCondition | databricks/sdk/oauth.py:314-331 | over all interleavings: a commit replaces a token other than the one its refresh was started for, if and only if a blocking refresh or another commit has succeeded since, and then which one |
| TokenRefresh.NothingOverwritten | databricks/sdk/oauth.py:294-336 | it does not, and refreshes do not overlap, as long as no call finds the token expired while one is on its way |
| TokenRefresh.SlowRefreshRegresses | databricks/sdk/oauth.py:314-331 | a run in which a single background refresh puts an older token in place of a newer one |
| TokenRefresh.TokenSafety | databricks/sdk/oauth.py:86-98 | every token handed out was fetched in the same call, or is the one in place and has no expiry or 40 seconds to live |
| TokenRefresh.ExpiredTokenIsRefreshed | databricks/sdk/oauth.py:294-309 | a call that finds the token expired clears both flags and refreshes, whatever is still to commit |
| TokenRefresh.NoSubmissionAfterFailure | databricks/sdk/oauth.py:323-336 | after the commit of a failed background refresh none is submitted until a call blocks, whatever else commits |
| TokenRefresh.FlagsTellSigns | databricks/sdk/oauth.py:294-336 | over any run, what the two flags say of the refreshes submitted and failed since the last call that blocked |
| TokenRefresh.StaleTokenIsRefreshed | databricks/sdk/oauth.py:264-336 | over any run, a call that finds the token stale submits a refresh exactly if since then none has failed and none is without result |
| TokenRefresh.NoSubmissionWhenDisabled | databricks/sdk/oauth.py:257-262 | with background refreshes disabled none is ever submitted |
| TokenRefresh.UsableTokenIsKept | databricks/sdk/oauth.py:294-309 | calls that find a usable token refresh nothing |
| TokenRefresh.SingleRefresh | databricks/sdk/oauth.py:294-309 | a burst of calls that find one expired token refreshes once |
| DataPlane.StepIsConsistent | databricks/sdk/data_plane.py:29-48 | no step of any thread breaks mutual exclusion, what threads know of the dictionary, or its history, and none changes an entry |
| DataPlane.RunIsConsistent | databricks/sdk/data_plane.py:29-48 | the same for every run |
| DataPlane.OneSourcePerKey | databricks/sdk/data_plane.py:29-48 | a key is installed at most once, with a source for the details of a request with that key, and calls use the same source exactly if they have the same key |
| DataPlane.NoSourceInVain | databricks/sdk/data_plane.py:39-46 | all sources that were made are in the dictionary, except for one that the thread in the lock is about to put there |
| DataPlane.SomeThreadCanGo | databricks/sdk/data_plane.py:29-48 | while a call is under way some thread can go on, gets closer to the end of its call and holds up no other |
| DataPlane.SourcesStay | databricks/sdk/data_plane.py:29-48 | an installed source is never replaced |
| DataPlane.SharedKeys | databricks/sdk/data_plane.py:30-30 | when two requests have the same key |
| DataPlane.KeysCanCollide | databricks/sdk/data_plane.py:30-30 | two different requests that do |
| DataPlane.DataPlaneTokenSource.GetSource | databricks/sdk/data_plane.py:29-48 | a call finds or installs the source of its key and leaves the others |
| Tagging.AdoptionIsConsistent | tagging.py:358-363 | a repository with all versions tagged satisfies the invariant |
| Tagging.OrdinaryCommitIsConsistent | tagging.py:480-494 | commits between runs keep the invariant and what is pending |
| Tagging.ReleaseIsConsistent | tagging.py:450-460 | a release commit keeps the invariant, and just its packages become pending |
| Tagging.RepeatIsConsistent | tagging.py:48-58 | a release that is pushed once more keeps the invariant and what is pending |
| Tagging.TagIsConsistent | tagging.py:463-468 | a tag on the last release commit keeps the invariant and takes its package off what is pending |
| Tagging.FindPendingTags | tagging.py:344-363 | exactly the packages whose latest version is untagged, each once |
| Tagging.ProcessPackages | tagging.py:285-300 | the prepared files release the packages with notes and no others, and the tags listed are those of the new versions |
| Tagging.GitHubRepo.CommitAndPush | tagging.py:48-58 | whether it is reported as failed or not, a push either leaves the repository alone or makes the release |
| Tagging.PushTags | tagging.py:463-468 | tags only the pending versions, on the release commit, wherever it stops; if it completes nothing is pending |
| Tagging.UpdateChangelogs | tagging.py:450-460 | one attempt pushes the release of the packages with notes or nothing, and lists its tags; on a checkout that has an earlier push it finds nothing |
| Tagging.NotesAreGone | tagging.py:182-213 | after a release there are no notes for another one |
| Tagging.MisreportedPushLosesTags | tagging.py:422-460 | after a push that took effect but was reported as failed, all tags of the release are pending and another attempt finds none |
| Tagging.StaleCheckoutReleasesAgain | tagging.py:400-419 | if the fetch in between failed, another attempt releases the same versions again |
| Tagging.ResetRepository | tagging.py:400-419 | the cleanup leaves the current branch or, after a failed fetch, what was fetched last |
| Tagging.RetryUpdate | tagging.py:422-447 | it fails exactly after five failed attempts or a failure that is not retried; there are as many releases as pushes that took effect; there are no tags to apply exactly if there was nothing to release, or a misreported push has been fetched |
| Tagging.Recover | tagging.py:480-494 | applies all pending tags on the last release commit |
| Tagging.Process | tagging.py:517-555 | wherever a run stops the invariant holds and no tag has moved; with pending tags a run releases nothing and a completed one has applied them all on the last release; otherwise it releases the chosen packages as often as a push took effect, and a completed one has tagged all of them on the last release unless it has fetched a misreported push |
| Tagging.CompletedRunCondition | tagging.py:517-555 | a completed run has made exactly one release and tagged it if and only if no push was misreported |
| RoundTrip.Utf8SizeIsLeast | databricks/sdk/logger/round_trip_logger.py:77-77 | the size counted for a character is the least number of bytes that can hold it (section 3 of RFC 3629) |
| RoundTrip.DecimalIsNumeral | databricks/sdk/logger/round_trip_logger.py:79-79 | the printed number reads back as the number |
| RoundTrip.CutStringSays | databricks/sdk/logger/round_trip_logger.py:75-80 | how much of a string is printed, and which number is announced after it |
| RoundTrip.CutStringAddsUp | databricks/sdk/logger/round_trip_logger.py:75-80 | what is shown of a cut string and the number that can be read from its end add up to its length exactly if it is ASCII up to the cut |
| RoundTrip.CutStringCanOverstate | databricks/sdk/logger/round_trip_logger.py:75-80 | a string for every limit that the constructor allows for which they do not |
| RoundTrip.SortOrders | databricks/sdk/logger/round_trip_logger.py:85-85 | the keys come in lexicographic order |
| RoundTrip.SortPermutes | databricks/sdk/logger/round_trip_logger.py:85-85 | sorting loses and adds no entry |
| RoundTrip.MarkerIsKept | databricks/sdk/logger/round_trip_logger.py:26-26 | no configured limit cuts the marker |
| RoundTrip.MarshalRedacts | databricks/sdk/logger/round_trip_logger.py:57-110 | in the output of any value, every entry under one of the five keys at any depth is `**REDACTED**` |
| RoundTrip.MarshalErased | databricks/sdk/logger/round_trip_logger.py:57-110 | erasing what masked entries hold does not change the output |
| RoundTrip.OutputIgnoresMasked | databricks/sdk/logger/round_trip_logger.py:57-110 | values that differ only in masked entries are printed alike, cuts included |
| RoundTrip.ObjectKeepsKeys | databricks/sdk/logger/round_trip_logger.py:82-89 | an object is printed with all its keys, in lexicographic order |
| RoundTrip.AtMostIsLexicographic | databricks/sdk/logger/round_trip_logger.py:85-85 | that order: a prefix comes first, and else the smaller code point where two keys first differ |
| RoundTrip.ObjectShowsEntries | databricks/sdk/logger/round_trip_logger.py:82-89 | every other entry of the output is the value under its key, printed with what the entries before it have left of the budget |
| RoundTrip.PlainIsShown | databricks/sdk/logger/round_trip_logger.py:102-110 | null, truth values and numbers are printed as they are |
| RoundTrip.ListAddsUp | databricks/sdk/logger/round_trip_logger.py:91-100 | elements shown plus the number that can be read from the last one are the length of the list, at least one is shown, and as many as its whole budget allows |
| RoundTrip.MaskInPlace | databricks/sdk/logger/round_trip_logger.py:57-67 | the values under masked keys are overwritten in place, the others left |
| RoundTrip.RecursiveMarshalDict | databricks/sdk/logger/round_trip_logger.py:82-89 | the loop over a dictionary computes the specified entries |
| RoundTrip.RecursiveMarshalList | databricks/sdk/logger/round_trip_logger.py:91-100 | the loop over a list computes the specified elements |
| RoundTrip.RecursiveMarshal | databricks/sdk/logger/round_trip_logger.py:102-110 | the mutual recursion of the loops computes the specified value |
| RoundTrip.RedactedDump | databricks/sdk/logger/round_trip_logger.py:112-122 | a body is marshalled with the limit of strings, at least 96, as its budget |
| WorkspaceList.List | databricks/sdk/mixins/workspace.py:30-38 | on any finite tree a recursive listing yields the level order of its objects and ends; it fails exactly if some directory cannot be listed, after yielding a prefix; a plain listing yields the contents of the path |
| WorkspaceList.ListDirectory | databricks/sdk/mixins/workspace.py:34-38 | one pass yields the objects and queues the directories |
| WorkspaceList.EachObjectOnce | databricks/sdk/mixins/workspace.py:30-38 | the level order has every object that is no directory exactly as often as the tree, and no directory |
| WorkspaceList.LevelsAreByDepth | databricks/sdk/mixins/workspace.py:30-38 | objects come by their depth |
| Casing.Name.constructor | databricks/sdk/casing.py:4-20 | the loop over characters finds exactly the segments: a letter and the lower-case letters after it |
| Casing.SegmentsLaw | databricks/sdk/casing.py:4-20 | where a segment begins and ends, and what is passed over |
| Casing.SegmentsAreWords | databricks/sdk/casing.py:4-20 | segments are never empty and in lower case |
| Casing.SegmentsKeepLetters | databricks/sdk/casing.py:4-20 | the segments together are all the letters of the name |
| Casing.PrintedFormsAreRead | databricks/sdk/casing.py:22-26 | both printed forms are parsed into the segments they were made of |
| Casing.PrintedFormsAreSegments | databricks/sdk/casing.py:22-26 | what is between the underscores of the snake form are the segments, and between the dashes of the header form the segments with their first letter as a capital |
| Casing.PrintersAreIdempotent | databricks/sdk/casing.py:22-26 | printing twice is printing once, also across the two forms |
| Casing.PrintersTellSegmentsApart | databricks/sdk/casing.py:22-26 | names print alike exactly if they have the same segments |
| Casing.ToHeaderCase | databricks/sdk/casing.py:29-38 | the header form of a name |

## Left out

- HTTP headers other than `Content-Range` and `Range`, TLS, logging, timeouts of single requests, and the
  parsing of XML error bodies and of `Range` headers: a reply is a status with what the code reads from it.
- The request for the URL of a resumable upload, which precedes the part that aborts on errors: the upload
  starts with the URL at hand.
- What an abort does with its own failures: it is a best effort, and the error that led to it goes on.
- ResumableUpload.PerformResumableUpload: exactness is stated for streams that read in full; a short read is
  taken for the end of the stream by the code, so it does not hold for others.
- ResumableUpload.Session: the session expires after some number of chunk requests, as its URL does after a
  week; against a server that never advances the loop would go on until then. A 308 once everything is stored
  is not an answer of a faithful session.
- Download.RemoteFile: a connection that ends without an error ends at the end of the file.
- Download.ResilientIterator.Next: ends if a limit on recoveries is set or connections stop failing, as without
  both it need not.
- The number of URLs that a multipart upload asks for at once: the server may give any number of them.
- `_StreamingResponse.close()` before the first read, which fails for a resilient response because it has no
  iterator yet.
- TokenRefresh: the executor accepts every refresh and may run it at any later time, or never. If it refused one,
  as it does at shutdown, the call would fail with the flag set and nothing on its way. Expiries with a time zone
  are not modelled.
- TokenRefresh.Refreshable: calls are atomic, since they hold the lock throughout.
- DataPlane: threads are modelled as steps on values, as their interleaving is the point; `GetSource` gives the
  call in place for one thread.
- RoundTrip.MaskInPlace: the dictionary is an array of entries; that the dictionary which was masked is the
  caller's own is not modelled beyond this method, as nothing reads it afterwards.
- RoundTrip: the budget is charged with the length of Python's printed form, which is a parameter; bodies that
  are no JSON are cut but not masked.
- Tagging: regular expressions over changelogs, references to versions in other files, commit messages and the
  legacy mode are not modelled: a package has released versions, a next version, and notes or none. A commit
  is one step. Others may commit while the script runs, but not to the changelogs. After a failure a run is
  modelled as going on from the commits and tags that there are. A run starts on an up-to-date checkout, with
  its tags; within a run fetches may fail.
- Casing: characters outside ASCII count as separators here; Python knows more letters.
- WorkspaceList: objects inside a `REPO` are not visited, as the code treats it as no directory.
- `_VolumesPath.list(recursive=True)`: it builds the paths of children from the top directory
  (`databricks/sdk/mixins/files.py:491`), so it is not the traversal proved here.
- The generated services, the configuration, credential providers, the ordering of versions and the error
  deserializers.
