# Tomcat cores in Dafny

This project models five small cores of Apache Tomcat and proves what their code promises.

- **`Smap` (smap_stratum.dfy).** The JSR-045 ("Debugging Support for Other Languages") stratum that the Jasper JSP compiler builds for every generated servlet. It covers:
  - the `LineInfo` records and their guarded setters;
  - the file table with unique paths;
  - `addLineData`;
  - the in-place merging of records (`optimizeLineSection`);
  - the `SMAP … *E` rendering;
  - the reverse lookup from a Java line to a JSP line.

  `LineInfo` and `SmapStratum` are classes whose methods update their fields. Rendering and lookup are functions over the record sequence.
- **`ParamParser` (parameter_parser.dfy).** The name/value parameter tokenizer of the file-upload code. `ParameterParser` is a class over a `char` array with the cursor fields `pos`, `len`, `i1` and `i2`, and its loops are `while` loops with invariants. Each method is proved against a specification function: `TokenEnd`, `QuotedEnd`, `TokenValue`, `Step`, `Entries` and `ParseChars`. Properties are proved about those functions.
- **`DeltaProtocol` and `DeltaManagers` (delta_protocol.dfy, delta_manager.dfy).** The deterministic part of the delta session replication manager of the cluster module. It covers:
  - the replication decision of `requestCompleted`;
  - the queue-during-state-transfer gate of `messageDataReceived`;
  - the drain and stale-drop filter at the end of `getAllClusterSessions`;
  - the batching of `handleGET_ALL_SESSIONS`;
  - the outcome of `waitForSendAllSessions`;
  - the effects of every message handler;
  - `expireAllLocalSessions` and `resetStatistics`.

  `DeltaProtocol` states each decision as a function. `DeltaManager` is a class holding the manager's fields, and its methods are proved to change those fields as the functions say.
- **`CloseReason` (close_reason.dfy).** The WebSocket close reason of the Jakarta WebSocket API. It includes the lookup of the status codes of section 7.4.1 of RFC 6455 (with the IANA-registered 1012 and 1013) and of the application range 3000–4999 of section 7.4.2.
- **`ElEmpty` (el_empty.dfy).** The EL `empty` / `not empty` operator.

Supporting modules:

- `Wrappers` holds `Option` and `Result`.
- `Lists` holds `Distinct` and Java's `List.indexOf`.
- `Decimal` renders and parses decimal integers. `toString`, `getString` and the SMAP text need it, and the round-trip lemmas read the numbers back.

`CloseReason.toString` (`CloseReason.CloseReason.ToString`) has no postcondition of its own, so it has no row in the table below; `CloseReason.ToStringRoundTrip` states its meaning.

On these points the model follows the code:

- `ALL_SESSION_DATA` is never queued.
- With `stateTimestampDrop` on, queued `GET_ALL_SESSIONS` messages are dropped, not replayed.
- Only `stateTransferTimeout == -1` waits without limit. Zero and other negative values do not wait.
- `resetStatistics` leaves the NOCONTEXTMANAGER receive counter alone.
- In `ParameterParser`, the `length` argument of `parse(char[], offset, length, separator)` is an end index, not a count.

## Model

| member | source | states |
|---|---|---|
| Smap.LineInfo.constructor | java/org/apache/jasper/compiler/SmapStratum.java:34-39 | a new record has both start lines unset (-1), file id 0 not set, count 1 and increment 1 |
| Smap.LineInfo.SetInputStartLine | java/org/apache/jasper/compiler/SmapStratum.java:41-47 | a negative argument fails with IllegalArgumentException and changes nothing; otherwise the value is stored unchanged and nothing else moves |
| Smap.LineInfo.SetOutputStartLine | java/org/apache/jasper/compiler/SmapStratum.java:49-55 | a negative argument fails and changes nothing; otherwise only the output start line is set |
| Smap.LineInfo.SetLineFileID | java/org/apache/jasper/compiler/SmapStratum.java:64-71 | a negative argument fails and changes nothing; otherwise the id is stored and marked as set |
| Smap.LineInfo.SetInputLineCount | java/org/apache/jasper/compiler/SmapStratum.java:73-79 | a negative argument fails and changes nothing; otherwise only the count is set |
| Smap.LineInfo.SetOutputLineIncrement | java/org/apache/jasper/compiler/SmapStratum.java:81-87 | a negative argument fails and changes nothing; otherwise only the increment is set |
| Smap.MapsToBelowMax | java/org/apache/jasper/compiler/SmapStratum.java:89-91 | every output line a record maps lies in [outputStartLine, getMaxOutputLineNumber()), so the maximum is one past the last mapped line |
| Smap.LineString | java/org/apache/jasper/compiler/SmapStratum.java:97-115 | getString fails with IllegalStateException exactly when either start line is still -1; otherwise the text ends in a newline |
| Smap.LineStringRoundTrip | java/org/apache/jasper/compiler/SmapStratum.java:97-115 | the line read back from getString gives the input start, the file id iff it was set, the count, the output start and the increment, and the text that follows it is untouched |
| Smap.SmapStratum.constructor | java/org/apache/jasper/compiler/SmapStratum.java:124-131 | a new stratum has empty file lists and no records, lastFileID 0 and no file names |
| Smap.SmapStratum.AddFile | java/org/apache/jasper/compiler/SmapStratum.java:139-141 | addFile(name) registers the name as its own path, under the same rule as addFile(name, path) |
| Smap.SmapStratum.AddFileWithPath | java/org/apache/jasper/compiler/SmapStratum.java:149-155 | a new path is appended to both lists; a path already present changes nothing; the lists stay the same length and the paths stay distinct |
| Smap.SmapStratum.AddLineData | java/org/apache/jasper/compiler/SmapStratum.java:210-240 | an unregistered path fails and changes nothing; outputStartLine 0 is a no-op; a negative value fails from the setter, carrying the first negative one in setter order (inputStartLine, inputLineCount, outputStartLine, outputLineIncrement), and changes nothing; otherwise exactly one record is appended, whose file id is set iff the file index differs from lastFileID, and lastFileID becomes that index |
| Smap.SmapStratum.AddLineInfo | java/org/apache/jasper/compiler/SmapStratum.java:243-245 | the given record is appended and nothing else changes |
| Smap.SmapStratum.SetOutputFileName | java/org/apache/jasper/compiler/SmapStratum.java:248-250 | only the output file name changes |
| Smap.SmapStratum.SetClassFileName | java/org/apache/jasper/compiler/SmapStratum.java:253-255 | only the class file name changes |
| Smap.SmapStratum.GetClassFileName | java/org/apache/jasper/compiler/SmapStratum.java:256-258 | the getter returns the class file name as stored; SetClassFileName's contract states that the getter then answers the name given |
| Smap.MergeIncrementMeaning | java/org/apache/jasper/compiler/SmapStratum.java:163-175 | merging a one-line record into its successor by increment maps exactly the lines the two records mapped |
| Smap.MergeCountMeaning | java/org/apache/jasper/compiler/SmapStratum.java:178-190 | merging two records with the same increment by count maps exactly the lines the two records mapped |
| Smap.OptimizePreserves | java/org/apache/jasper/compiler/SmapStratum.java:160-191 | the optimized section never gets longer, keeps every record that carries a file id (same ids in the same order), keeps the records well formed, and maps every (file, input line) to the same output lines as before |
| Smap.SmapStratum.OptimizeLineSection | java/org/apache/jasper/compiler/SmapStratum.java:160-191 | the two in-place merging loops leave exactly the optimized section, so OptimizePreserves applies to it; the file lists do not change |
| Smap.StripLeadingSlash | java/org/apache/jasper/compiler/SmapStratum.java:296-301 | exactly one leading "/" is removed, and a path without one is unchanged |
| Smap.FileEntryStripsOneSlash | java/org/apache/jasper/compiler/SmapStratum.java:292-306 | a FileSection entry with a path is "+ i name", a newline, then the path without its leading "/" |
| Smap.LineSection | java/org/apache/jasper/compiler/SmapStratum.java:308-314 | the LineSection fails exactly when some record's getString fails |
| Smap.LineSectionRoundTrip | java/org/apache/jasper/compiler/SmapStratum.java:308-314 | the LineSection of well-formed records with set start lines reads back as the records, in order |
| Smap.SmapText | java/org/apache/jasper/compiler/SmapStratum.java:279-320 | the rendering fails exactly when some record fails; otherwise it starts with "SMAP\n<output>\nJSP\n*S JSP\n*F\n" and ends with "*E\n" |
| Smap.SmapStratum.GetSmapString | java/org/apache/jasper/compiler/SmapStratum.java:269-276 | without an output file name it fails with IllegalStateException; otherwise it is the rendering of the current lists and records |
| Smap.ScanNoMatch | java/org/apache/jasper/compiler/SmapStratum.java:323-350 | when no record before the first one starting beyond the line covers it, the input line returned is -1 |
| Smap.ScanLastMatch | java/org/apache/jasper/compiler/SmapStratum.java:329-347 | when every covering record scanned has a positive increment, the input line is inputStartLine + (out - outputStartLine) / outputLineIncrement (Java division) of the last covering record scanned |
| Smap.SmapStratum.GetInputLineNumber | java/org/apache/jasper/compiler/SmapStratum.java:323-350 | the loop returns the lookup of the current records and paths, including its division-by-zero and index failures |
| Smap.LookupReportsFollowingFile | java/org/apache/jasper/compiler/SmapStratum.java:329-336 | as written, the lookup can report the file of the record that stops the scan instead of the file of the matching record (a concrete case) |
| Smap.LookupOffByOne | java/org/apache/jasper/compiler/SmapStratum.java:338-346 | as written, a record also matches the output line one past its range and reports an input line that nothing maps (a concrete case) |
| Smap.SmapStratum.GetInputLineNumberIntended | java/org/apache/jasper/compiler/SmapStratum.java:323-350 | the corrected loop returns the corrected lookup of the current records, and whatever it reports is a (file, input line) the LineSection maps to the given output line |
| Smap.LookupIntendedSound | java/org/apache/jasper/compiler/SmapStratum.java:323-350 | the corrected lookup only reports a (file, input line) that the LineSection really maps to the given output line |
| ParamParser.ParameterParser.constructor | java/org/apache/tomcat/util/http/fileupload/ParameterParser.java:72-73 | a new parser starts with lowerCaseNames off and its cursors at 0 |
| ParamParser.ParameterParser.SetLowerCaseNames | java/org/apache/tomcat/util/http/fileupload/ParameterParser.java:322-324 | only the flag changes |
| ParamParser.ParameterParser.IsLowerCaseNames | java/org/apache/tomcat/util/http/fileupload/ParameterParser.java:126-128 | the getter returns the lowerCaseNames flag: off for a new parser, and the value last given to SetLowerCaseNames (both contracts state it through the getter) |
| ParamParser.ParameterParser.HasChar | java/org/apache/tomcat/util/http/fileupload/ParameterParser.java:114-116 | true exactly when characters remain before the end index (len - pos > 0); the main loops run while it holds |
| ParamParser.ParameterParser.IsOneOf | java/org/apache/tomcat/util/http/fileupload/ParameterParser.java:139-148 | the loop answers true exactly when the character occurs in the array |
| ParamParser.ParameterParser.TokenBounds | java/org/apache/tomcat/util/http/fileupload/ParameterParser.java:84-106 | the two trimming loops and the quote check find the bounds of the token's value inside [i1, i2), which are those of TokenSpan: past the leading blanks, before the trailing ones, inside one enclosing pair of quotes |
| ParamParser.ParameterParser.GetToken | java/org/apache/tomcat/util/http/fileupload/ParameterParser.java:84-106 | the result is the token value of chars[i1..i2); in every case i1 and i2 are left at TokenSpan's bounds, and on success they delimit the returned text |
| ParamParser.TokenNoneIffBlank | java/org/apache/tomcat/util/http/fileupload/ParameterParser.java:84-106 | an unquoted token is null exactly when its range is all whitespace |
| ParamParser.TokenIsTrimmed | java/org/apache/tomcat/util/http/fileupload/ParameterParser.java:86-92 | a non-null unquoted token is the range with its leading and trailing whitespace removed: it starts and ends with non-whitespace, and everything cut away is whitespace |
| ParamParser.QuotesStripped | java/org/apache/tomcat/util/http/fileupload/ParameterParser.java:94-100 | with quoted set, one enclosing pair of '"' is removed from the trimmed text, and an empty result is null |
| ParamParser.LoneQuoteKept | java/org/apache/tomcat/util/http/fileupload/ParameterParser.java:94-100 | a single '"' (length below 2) is not stripped |
| ParamParser.LowerCaseSpec | java/org/apache/tomcat/util/http/fileupload/ParameterParser.java:205-207 | lower-casing maps each character on its own and leaves no upper-case letter |
| ParamParser.TokenEndSpec | java/org/apache/tomcat/util/http/fileupload/ParameterParser.java:299-312 | the scan stops at the first terminator, or at len when there is none |
| ParamParser.ParameterParser.ParseToken | java/org/apache/tomcat/util/http/fileupload/ParameterParser.java:299-312 | pos ends at the first terminator at or after the old pos, or at len (never past it), and the result is the trimmed token before it |
| ParamParser.QuotedEndSpec | java/org/apache/tomcat/util/http/fileupload/ParameterParser.java:268-288 | the quoted scan stops only at a terminator outside quotes; every terminator it passes lies inside an open quote |
| ParamParser.EscapedQuoteKeepsQuoting | java/org/apache/tomcat/util/http/fileupload/ParameterParser.java:276-282 | a '"' preceded by an unescaped backslash does not toggle quoting |
| ParamParser.UnescapedQuoteToggles | java/org/apache/tomcat/util/http/fileupload/ParameterParser.java:276-282 | an unescaped '"' toggles quoting |
| ParamParser.ParameterParser.ParseQuotedToken | java/org/apache/tomcat/util/http/fileupload/ParameterParser.java:268-288 | pos ends where the quoted scan stops, never past len, and the result is the token with one enclosing pair of quotes stripped |
| ParamParser.ParameterParser.ParseValue | java/org/apache/tomcat/util/http/fileupload/ParameterParser.java:187-199 | after '=' the value is the quoted token, decoded with the name's decoder, and the original text is kept when decoding fails; without '=' the value is null and pos stays put |
| ParamParser.StepSpec | java/org/apache/tomcat/util/http/fileupload/ParameterParser.java:185-209 | one iteration strictly increases pos without passing len; a stored pair has a non-empty name and its key is the name with the delimiter stripped (lower-cased when the flag is set); a name with no following '=' gets a null value |
| ParamParser.ParameterParser.ParseOne | java/org/apache/tomcat/util/http/fileupload/ParameterParser.java:186-209 | one turn of the main loop moves the cursor and yields the pair exactly as one step of the specification does |
| ParamParser.EntriesSpec | java/org/apache/tomcat/util/http/fileupload/ParameterParser.java:185-210 | every pair the main loop stores has a non-empty name and the key derived from it |
| ParamParser.ParseChars | java/org/apache/tomcat/util/http/fileupload/ParameterParser.java:177-212 | with length used as an end index: an empty range gives an empty map, and a non-empty range reaching outside the array fails |
| ParamParser.ParsedKeys | java/org/apache/tomcat/util/http/fileupload/ParameterParser.java:203-209 | every stored key comes from a non-empty name, so null and empty names are never inserted |
| ParamParser.LowerCaseKeys | java/org/apache/tomcat/util/http/fileupload/ParameterParser.java:205-208 | with lowerCaseNames set, no stored key holds an upper-case letter |
| ParamParser.ParameterParser.ParseRange | java/org/apache/tomcat/util/http/fileupload/ParameterParser.java:177-212 | a null array gives an empty map; otherwise the loop builds exactly the map of the specification, including the failure for an out-of-range non-empty range |
| ParamParser.ParameterParser.ParseArray | java/org/apache/tomcat/util/http/fileupload/ParameterParser.java:160-165 | a null array gives an empty map; otherwise the whole array is parsed |
| ParamParser.ParameterParser.ParseString | java/org/apache/tomcat/util/http/fileupload/ParameterParser.java:223-228 | a null string gives an empty map; otherwise the string's characters are parsed |
| ParamParser.EarliestSeparator | java/org/apache/tomcat/util/http/fileupload/ParameterParser.java:244-254 | the separator chosen is one of those given: the one occurring earliest in the string, or the first separator when none occurs or the string is null |
| ParamParser.ParameterParser.ParseMulti | java/org/apache/tomcat/util/http/fileupload/ParameterParser.java:240-256 | null or empty separators give an empty map; otherwise the string is parsed with the earliest-occurring separator, defaulting to the first |
| DeltaManagers.CompleteRequest | java/org/apache/catalina/ha/session/DeltaManager.java:921-970 | the imperative body of requestCompleted for a found session computes exactly the decision of Complete |
| DeltaProtocol.CompleteEvent | java/org/apache/catalina/ha/session/DeltaManager.java:921-964 | a dirty session yields SESSION_DELTA (unless its diff fails); ACCESSED comes exactly for a clean, non-expiring session that is not primary or was last replicated more than maxInactive seconds ago (with maxInactive >= 0); no other message is produced |
| DeltaProtocol.CompleteSession | java/org/apache/catalina/ha/session/DeltaManager.java:921-970 | the session is left clean, since getDiff takes its pending changes even when serializing them fails; a failed diff changes nothing else; otherwise a request (not an expiry) leaves the session primary and an expiry leaves the flag unchanged; a message stamps lastTimeReplicated with now; no other field of the session changes |
| DeltaProtocol.CompleteCounters | java/org/apache/catalina/ha/session/DeltaManager.java:921-963 | the delta counter counts dirty sessions and the access counter counts access messages; no other counter moves |
| DeltaProtocol.CompleteQuiet | java/org/apache/catalina/ha/session/DeltaManager.java:921-970 | right after a request whose diff did not fail, a second request at the same instant with no new change produces no message |
| DeltaManagers.ReplicationMessage | java/org/apache/catalina/ha/session/DeltaManager.java:966-971 | a message is returned exactly when an event was decided, and its type, session id and timestamp are that event, the id and now |
| DeltaManagers.DeltaManager.RequestCompleted | java/org/apache/catalina/ha/session/DeltaManager.java:911-972 | an unknown session id returns no message and changes nothing; otherwise the session (left clean, as getDiff leaves it), counters and message are those of the decision, and no other field, maxActive included, changes |
| DeltaManagers.DeltaManager.MessageDataReceived | java/org/apache/catalina/ha/session/DeltaManager.java:870-893 | while receiverQueue is set, the six queueable types are appended to the queue and nothing is dispatched; every other message, ALL_SESSION_DATA, TRANSFERCOMPLETE and NOCONTEXTMANAGER included, is dispatched at once |
| DeltaManagers.DeltaManager.MessageReceived | java/org/apache/catalina/ha/session/DeltaManager.java:1084-1133 | the state after a message is the effect of the handler for its type; an unknown type changes nothing |
| DeltaProtocol.QueueableKeepsTransferState | java/org/apache/catalina/ha/session/DeltaManager.java:870-893 | no queueable message touches stateTransferred, noContextManagerReceived or the reference time |
| DeltaProtocol.TransferCompleteEffect | java/org/apache/catalina/ha/session/DeltaManager.java:1152-1153 | TRANSFERCOMPLETE sets stateTransferred and takes the message's timestamp as the reference time, and leaves the sessions alone |
| DeltaProtocol.AccessedEffect | java/org/apache/catalina/ha/session/DeltaManager.java:1196-1204 | ACCESSED makes a known session non-primary and changes nothing else in the session table; handling it twice is the same as handling it once |
| DeltaManagers.DeltaManager.HandleAllSessionTransferComplete | java/org/apache/catalina/ha/session/DeltaManager.java:1144-1154 | the counter, the reference time and stateTransferred change as the handler's effect says, and nothing else |
| DeltaManagers.DeltaManager.HandleSessionAccessed | java/org/apache/catalina/ha/session/DeltaManager.java:1192-1205 | the counter and the session's primary flag change as the handler's effect says |
| DeltaManagers.DeltaManager.HandleAllSessionNoContextManager | java/org/apache/catalina/ha/session/DeltaManager.java:1362-1371 | the receive counter is bumped and noContextManagerReceived is set |
| DeltaManagers.DeltaManager.HandleSessionCreated | java/org/apache/catalina/ha/session/DeltaManager.java:1234-1252 | a valid, non-primary session with the context's timeout and the message's creation time is stored under the message's id, and maxActive is raised to the table size when that exceeds it |
| DeltaManagers.DeltaManager.HandleSessionExpired | java/org/apache/catalina/ha/session/DeltaManager.java:1215-1226 | a known session that is still valid is expired: it is removed and counted in expiredSessions; an unknown or invalid one leaves the table and that counter alone |
| DeltaManagers.DeltaManager.HandleSessionDelta | java/org/apache/catalina/ha/session/DeltaManager.java:1165-1182 | only the receive counter changes at manager level |
| DeltaManagers.DeltaManager.HandleChangeSessionId | java/org/apache/catalina/ha/session/DeltaManager.java:1340-1354 | a known session moves to its new id and becomes non-primary, and maxActive is raised to the table size when that exceeds it |
| DeltaManagers.DeltaManager.HandleAllSessionData | java/org/apache/catalina/ha/session/DeltaManager.java:1263-1277 | the state after the handler is that of Load and LoadPeak: the transferred sessions installed one by one, replacements counted, maxActive raised as the table grows |
| DeltaManagers.DeltaManager.DeserializeSessions | java/org/apache/catalina/ha/session/DeltaManager.java:590-606 | the loop installs each entry in turn, counts a replacement and raises the peak, ending exactly where Load and LoadPeak say |
| DeltaProtocol.LoadHighWater | java/org/apache/catalina/ha/session/DeltaManager.java:590-606 | loading never shrinks the table, and the peak afterwards is the old peak raised to the final table size |
| DeltaProtocol.DispatchHighWater | java/org/apache/catalina/ha/session/DeltaManager.java:1084-1125 | every handler keeps maxActive at least the number of sessions, and never lowers it |
| DeltaProtocol.ExpiredEffect | java/org/apache/catalina/ha/session/DeltaManager.java:1215-1226 | SESSION_EXPIRED removes a known, valid session and counts it in expiredSessions; otherwise the table and that counter are unchanged; maxActive does not move |
| DeltaProtocol.LoadKeys | java/org/apache/catalina/ha/session/DeltaManager.java:572-616 | after loading, the session ids are the old ones plus the transferred ones |
| DeltaProtocol.LoadKeeps | java/org/apache/catalina/ha/session/DeltaManager.java:572-616 | a session that no transferred entry names is kept unchanged |
| DeltaProtocol.LoadInstalls | java/org/apache/catalina/ha/session/DeltaManager.java:572-616 | an id holds the installed (valid, non-primary, clean) form of the last entry naming it |
| DeltaProtocol.NumBatches | java/org/apache/catalina/ha/session/DeltaManager.java:1304-1319 | the batching loop runs zero times exactly for zero sessions, and never more times than there are sessions |
| DeltaManagers.SplitBatches | java/org/apache/catalina/ha/session/DeltaManager.java:1304-1319 | the batches are consecutive slices whose concatenation is the session array; each is non-empty and holds sendAllSessionsSize sessions, except possibly the last; their number is NumBatches |
| DeltaManagers.Batches | java/org/apache/catalina/ha/session/DeltaManager.java:1300-1320 | with sendAllSessions set there is exactly one batch holding all sessions; otherwise the batches are those of SplitBatches |
| DeltaProtocol.ZeroBatchSizeStalls | java/org/apache/catalina/ha/session/DeltaManager.java:1304-1306 | as written, a batch size of 0 sends an empty batch and leaves the loop index where it was |
| DeltaManagers.DeltaManager.FindSessions | java/org/apache/catalina/ha/session/DeltaManager.java:1298 | the listed ids are exactly the session ids, each once |
| DeltaManagers.DeltaManager.SessionBatches | java/org/apache/catalina/ha/session/DeltaManager.java:1298-1320 | the batches cover every session id exactly once, in as many ALL_SESSION_DATA messages as the settings dictate |
| DeltaManagers.DeltaManager.HandleGetAllSessions | java/org/apache/catalina/ha/session/DeltaManager.java:1288-1332 | the batches cover every session once with the size rules above; exactly one TRANSFERCOMPLETE follows, stamped with the instant the sessions were listed; the counters move as the handler's effect says |
| DeltaProtocol.FindSessionMasterMember | java/org/apache/catalina/ha/session/DeltaManager.java:761-774 | the master is the first member, and there is none exactly when the member list is empty |
| DeltaManagers.DeltaManager.StartStateTransfer | java/org/apache/catalina/ha/session/DeltaManager.java:696-717 | without members nothing happens; otherwise GET_ALL is sent to the first member, stamped now; the reference time becomes now, stateTransferred is cleared and queueing starts |
| DeltaProtocol.WaitCases | java/org/apache/catalina/ha/session/DeltaManager.java:782-827 | only a positive timeout can time out (no reply within timeout seconds); only -1 can wait forever; zero and other negative values report at once |
| DeltaManagers.DeltaManager.WaitForSendAllSessions | java/org/apache/catalina/ha/session/DeltaManager.java:782-827 | the outcome is that of Wait for the current timeout and flag, and only a timeout bumps counterNoStateTransferred |
| DeltaProtocol.ReplayedMembers | java/org/apache/catalina/ha/session/DeltaManager.java:728-744 | a queued message is replayed exactly when it passes the filter: with stateTimestampDrop, not GET_ALL and not older than the reference time |
| DeltaProtocol.ReplayedAll | java/org/apache/catalina/ha/session/DeltaManager.java:729-730 | with stateTimestampDrop off, every queued message is replayed |
| DeltaProtocol.ReplayedInOrder | java/org/apache/catalina/ha/session/DeltaManager.java:728-744 | the replayed messages are the queue with some left out, in arrival order |
| DeltaProtocol.DispatchAllKeepsTransferState | java/org/apache/catalina/ha/session/DeltaManager.java:727-747 | replaying queued messages never changes the transfer flags or the reference time the filter compares against |
| DeltaManagers.DeltaManager.ReplayQueue | java/org/apache/catalina/ha/session/DeltaManager.java:728-744 | the loop leaves the state that handling the filtered queue in order produces |
| DeltaManagers.DeltaManager.DrainQueue | java/org/apache/catalina/ha/session/DeltaManager.java:727-747 | the queued messages that pass the filter are handled in arrival order; afterwards the queue is empty and receiverQueue is false |
| DeltaProtocol.Unexpired | java/org/apache/catalina/ha/session/DeltaManager.java:1050-1061 | exactly the sessions that are not both primary and valid remain, unchanged |
| DeltaProtocol.UnexpiredIdempotent | java/org/apache/catalina/ha/session/DeltaManager.java:1040-1067 | expiring the local sessions a second time changes nothing |
| DeltaManagers.DeltaManager.ExpireAllLocalSessions | java/org/apache/catalina/ha/session/DeltaManager.java:1022-1067 | exactly the primary, valid sessions are expired, each once, and the table keeps the others unchanged; the messages sent and the counters are those of ExpireRun over the expired ids |
| DeltaManagers.DeltaManager.ExpireLocal | java/org/apache/catalina/ha/session/DeltaManager.java:1050-1061 | the loop expires exactly the listed sessions that are primary and valid, each once, keeps the rest unchanged, and sends and counts as ExpireRun says |
| DeltaManagers.ExpireOneCounters | java/org/apache/catalina/ha/session/DeltaManager.java:1022-1036 | expiring one session counts it in expiredSessions, in the SESSION_EXPIRED send counter when the cluster has members, and in the delta send counter when it is dirty; nothing else moves |
| DeltaManagers.ExpireOneMessages | java/org/apache/catalina/ha/session/DeltaManager.java:1022-1036 | expiring one session sends a delta exactly when it is dirty and its diff serializes, SESSION_EXPIRED when the cluster has members, nothing else |
| DeltaManagers.ExpireRunCounters | java/org/apache/catalina/ha/session/DeltaManager.java:1022-1067 | expiring the sessions ids adds |ids| to expiredSessions, |ids| to the SESSION_EXPIRED send counter when there are members, and the number of dirty ones to the delta send counter |
| DeltaManagers.ExpireRunMessages | java/org/apache/catalina/ha/session/DeltaManager.java:1022-1067 | every message sent is a delta or SESSION_EXPIRED for an expired id, stamped now; a delta goes out for an id exactly when it is dirty and its diff serializes; with members each id gets SESSION_EXPIRED |
| DeltaProtocol.UnexpiredExactly | java/org/apache/catalina/ha/session/DeltaManager.java:1050-1061 | a table holding exactly the sessions that do not expire locally, unchanged, is Unexpired of the table |
| DeltaProtocol.Reset | java/org/apache/catalina/ha/session/DeltaManager.java:977-1013 | every counter reads zero afterwards except the NOCONTEXTMANAGER receive counter, which keeps its value |
| DeltaManagers.DeltaManager.ResetStatistics | java/org/apache/catalina/ha/session/DeltaManager.java:977-1013 | the counters are reset as above, maxActive becomes the number of active sessions, and sessions, flags and queue are unchanged |
| DeltaManagers.DeltaManager.constructor | java/org/apache/catalina/ha/session/DeltaManager.java:76-112 | the defaults: timeout 60, sendAllSessions on with size 1000, statistics on, stateTimestampDrop on, no sessions, flags clear, queue empty, counters zero |
| DeltaManagers.DeltaManager.SetStateTransferTimeout | java/org/apache/catalina/ha/session/DeltaManager.java:282-284 | only the timeout changes |
| DeltaManagers.DeltaManager.SetStateTimestampDrop | java/org/apache/catalina/ha/session/DeltaManager.java:334-336 | only the drop flag changes |
| DeltaManagers.DeltaManager.SetSendAllSessions | java/org/apache/catalina/ha/session/DeltaManager.java:348-350 | only sendAllSessions changes |
| DeltaManagers.DeltaManager.SetSendAllSessionsSize | java/org/apache/catalina/ha/session/DeltaManager.java:362-364 | a positive size becomes the batch size; zero or a negative size leaves the settings unchanged (the corrected setter) |
| DeltaManagers.DeltaManager.SetEnableStatistics | java/org/apache/catalina/ha/session/DeltaManager.java:407-409 | only the statistics flag changes |
| CloseReason.Code | java/jakarta/websocket/CloseReason.java:48-62 | every enum code lies in 1000..1015 and none is 1014 |
| CloseReason.GetCloseCode | java/jakarta/websocket/CloseReason.java:70-92 | whenever getCloseCode succeeds, getCode of the result is the code it was given; a failure is IllegalArgumentException for that code |
| CloseReason.GetCloseCodeSucceedsIff | java/jakarta/websocket/CloseReason.java:70-92 | getCloseCode succeeds exactly on 1000..1013, 1015 and 3000..4999 |
| CloseReason.ApplicationRangeAccepted | java/jakarta/websocket/CloseReason.java:71-73 | every code from 3000 to 4999 is accepted and reports itself |
| CloseReason.ConstantRoundTrip | java/jakarta/websocket/CloseReason.java:74-89 | looking up an enum constant's code gives back that constant |
| CloseReason.RejectedCodes | java/jakarta/websocket/CloseReason.java:74-91 | codes below 1000, 1014, 1016..2999 and from 5000 on are rejected |
| CloseReason.CodeInjective | java/jakarta/websocket/CloseReason.java:48-68 | no two enum constants share a code |
| CloseReason.ConstructorStores | java/jakarta/websocket/CloseReason.java:24-35 | the getters return exactly what the constructor was given |
| CloseReason.ToStringRoundTrip | java/jakarta/websocket/CloseReason.java:38-40 | toString is "CloseReason: code [" + code + "], reason [" + reason + "]", and the code and the reason text can be read back from it |
| ElEmpty.NewEmptyNode | java/org/apache/el/parser/AstAbstractEmpty.java:34-43 | the answer for an empty value is true exactly when not inverted, and the two answers always differ |
| ElEmpty.GetType | java/org/apache/el/parser/AstAbstractEmpty.java:47-49 | getType is the type of the value getValue produces, Boolean |
| ElEmpty.GetValue | java/org/apache/el/parser/AstAbstractEmpty.java:53-62 | the result is always a Boolean |
| ElEmpty.EmptyOperator | java/org/apache/el/parser/AstAbstractEmpty.java:53-62 | without inversion the result is true exactly for null, an empty string, an empty array, an empty collection or an empty map |
| ElEmpty.NotEmptyIsNegation | java/org/apache/el/parser/AstAbstractEmpty.java:34-43 | with inversion the result is the negation of the non-inverted result for every value |
| ElEmpty.EmptyAndNonEmptyDiffer | java/org/apache/el/parser/AstAbstractEmpty.java:36-42 | an empty and a non-empty value never give the same answer |
| ElEmpty.OtherKindsNotEmpty | java/org/apache/el/parser/AstAbstractEmpty.java:55-61 | a value of any other kind, numbers and Booleans included, counts as not empty |
| ElEmpty.ValueHasAnnouncedType | java/org/apache/el/parser/AstAbstractEmpty.java:47-62 | the value getValue returns always has the type getType announces |

## Left out

- I/O and transport. `cluster.send` and its send options become returned values: the request for `getAllClusterSessions`, and the batches and TRANSFERCOMPLETE of `handleGET_ALL_SESSIONS`.
- Java serialization. `serializeSessions`, `deserializeSessions`, `deserializeSessionId` and `ReplicationStream` are left out. Messages carry their payload as values: the session entries, the new id, or a marker for delta data. A failing `getDiff` is the parameter `diffFails`.
- DeltaSession internals:
  - `deserializeAndExecuteDeltaRequest`, `access`/`endAccess` and session listeners are left out;
  - expiring a session is modelled as what the manager sees of it: the session is removed from the table and counted in `expiredSessions`, and with `notifyCluster` the replication of `requestCompleted(id, true)` and `sessionExpired` are sent;
  - a session created from a SESSION_CREATED message gets `lastReplicated` = `now`.
  - `getDiff` is modelled only by its effect on the session: it takes the pending changes, so the session is no longer dirty, whether or not serializing them then fails.
- CloseReason.CloseReason: the Java constructor accepts a `null` close code, and `toString` then throws NullPointerException at `closeCode.getCode()`. The datatype always holds a code, so that failure is not modelled.
- Concurrency. The `volatile` flags, `synchronized` blocks, atomic counters and the receiver thread running beside `getAllClusterSessions` are not modelled. Each method runs alone.
- Clocks and sleeping. `System.currentTimeMillis()` becomes a single `now` per operation, and the `Thread.sleep` polling is not modelled.
- DeltaManagers.DeltaManager.WaitForSendAllSessions: models only how the wait ends. Its input is the elapsed time at which the reply is first seen, not the polling loop.
- `getAllClusterSessions` is split into `StartStateTransfer`, `WaitForSendAllSessions` and `DrainQueue`. The message the caller sends between them is outside the model.
- DeltaManagers.DeltaManager.HandleAllSessionData: its loop collects the sessions in a local map and stores them once at the end. Nothing else can observe the table while the loop runs, because concurrency is out.
- DeltaManagers.DeltaManager.ExpireAllLocalSessions: works the same way. The cluster's members and the sessions whose diff throws are inputs.
- `ManagerBase`, `DeltaSession` and `StandardSession` are not part of this model. The behaviour used from them:
  - `add` raises `maxActive` to the table size when the table outgrows it;
  - `remove(session, true)` counts the session in `expiredSessions`, whether or not statistics are enabled;
  - `expire` does nothing for a session that is no longer valid.
- Java `char` is a UTF-16 code unit, while a Dafny `char` is a Unicode scalar value. A lone surrogate cannot be represented, and offsets count scalar values rather than code units. Parsing is unaffected, because every character the parser looks for is in the Basic Multilingual Plane and none is a surrogate.
- `resetStatistics` clears the session creation and expiration timing caches; these caches are not modelled.
- Logging, the context-classloader swap of `messageReceived`, and the lifecycle methods are left out.
- Integer widths are left out, because nothing in the cores relies on wrap-around:
  - `int` and `long` overflow are not modelled;
  - all integers are unbounded;
  - Java's truncating division in `getInputLineNumber` is written out as `JavaDiv`.
- `Smap.SmapStratum.AddLineInfo` stores the record's value. Later changes through the caller's `LineInfo` reference (aliasing) are not seen by the stratum.
- The `Localizer` message texts and the `SmapInput` class are not part of this model. Errors carry their kind and value, and the lookup returns a (path, line) pair.
- ParamParser.DecodeValue and ParamParser.KeyOf: `MimeUtility.decodeText`, `RFC2231Utility.hasEncodedValue`/`decodeText`/`stripDelimiter` are not part of this model. They are function parameters, and a decoding failure (`UnsupportedEncodingException`) keeps the original value.
- ParamParser.IsWhitespace: approximates `Character.isWhitespace` by a fixed set of ranges.
- ParamParser.LowerCase: approximates `toLowerCase(Locale.ROOT)` by ASCII A–Z only.
- ParamParser.ParseChars: the `ArrayIndexOutOfBoundsException` that Java raises partway through a range reaching outside the array is reported up front as a failure, without the partial map.

## Findings

| source | as written | input that shows it | evidently intended | confidence | as-written member | corrected member |
|---|---|---|---|---|---|---|
| java/org/apache/jasper/compiler/SmapStratum.java:329-336 | `getInputLineNumber` takes the file id from every record it looks at before testing whether the record starts beyond the line, so the record that stops the scan (and any later non-matching record) overwrites the file of the match | records `[1:1]` for file 0 and `1#1:10` for file 1, output line 1: returns the path of file 1, line 1, although line 1 of file 1 maps nowhere near output line 1 | report the file in effect for the record that matched | not executed; high that the reported file is wrong for this input | Smap.LookupReportsFollowingFile | Smap.SmapStratum.GetInputLineNumberIntended |
| java/org/apache/catalina/ha/session/DeltaManager.java:1304-1306 | `setSendAllSessionsSize` accepts any value, and the batching loop advances by that size | sendAllSessions false, batch size 0, one session: each turn sends an empty batch and the index stays at 0, so the loop never ends | accept only a positive batch size | not executed; high that a size of 0 hangs the loop | DeltaProtocol.ZeroBatchSizeStalls | DeltaManagers.DeltaManager.SetSendAllSessionsSize |
| java/org/apache/jasper/compiler/SmapStratum.java:338 | a record is skipped only when `getMaxOutputLineNumber() < out`, but that maximum is one past the last output line the record maps, so `out == max` counts as a match | record `5:10` (one input line, increment 1), output line 11: returns input line 6, which the record does not map | skip when `getMaxOutputLineNumber() <= out` | not executed; medium, since callers may rely on the lenient bound | Smap.LookupOffByOne | Smap.SmapStratum.GetInputLineNumberIntended |
