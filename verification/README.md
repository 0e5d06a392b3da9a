# Gnftato core, modelled in Dafny

Gnftato is a web panel that manages the nftables firewall of remote Linux
servers. It reaches each server over SSH and drives a shell script there,
`Nftato.sh`, by passing a numbered menu action. This project models the panel's
core as pure functions over immutable data:

- **The SSH session registry** (`Sessions`). This covers the per-server
  connection map, the guard that stops a stale connection's events from
  evicting a newer one, and the health check.
- **The command executor** (`Executor`). This covers the three-retry
  `executeCommand` and the line-splitting of `executeCommandWithStream`.
- **The script pipeline** (`ScriptRunner`). This covers `executeNftato`
  (locate, permission check, chmod, run) and the deployment sequence.
- **The nftables service** (`Nftables`). This covers the action-code
  catalogue, the prerequisites, the script-path choice, the quoted
  parameter command and the empty-list short-cuts.
- **The parsers of the script's reports**:
  - `PortReport` parses the TCP/UDP port report and the IP report, after
    stripping ANSI colours.
  - `PortPattern` is the port-list format check of `disallowInboundPorts`.
- **The JSON-file models** (`Records`, `ServerModel`, `RuleModel`) and the
  per-server rules cache (`RulesCache`).
- **The two controllers** (`ServerController`, `RulesController`). These
  cover each handler's status codes and what it writes.
- **The parts of the rules view that decide things** (`ClientCache`,
  `ClientGuard`). These are:
  - the time-to-live cache and its invalidation;
  - the de-duplicated port table;
  - the refusal to close the SSH port;
  - the confirmation for critical ports;
  - the two-second debounce;
  - the detection of the SSH port in the script's report.

Supporting modules:

- `Maybe` is an option type.
- `Text` covers trimming, splitting, joining, decimal printing and
  `parseInt`.
- `JsValues` covers JavaScript values, truthiness and `||`.

Everything the program receives from outside is a parameter of the model:

- **Server replies**: a function from the command text to its result.
- **Whether a file write succeeds**: a boolean.
- **The clock, fresh ids and random suffixes**: values passed in.
- **Connection events**: an explicit event sequence.

## Model

| member | source | states |
|---|---|---|
| `Sessions.BeginConnect` | server/services/sshService.js:24-66 | An unknown server id is an error. Otherwise the old entry for that server is removed, a fresh connection number is drawn, and every other server's entry is kept. |
| `Sessions.OnEvent` | server/services/sshService.js:69-132 | Each connection event writes its status: ready → online; error, timeout and close-with-error → error; end and clean close → offline. Only `ready` registers the connection, and no other server's entry changes. |
| `Sessions.StaleEventKeepsEntry` | server/services/sshService.js:96-113 | A non-ready event from a connection that no longer owns the slot leaves the registry map untouched. |
| `Sessions.StaleEventsKeepEntry` | server/services/sshService.js:96-113 | The same holds for any sequence of such events. |
| `Sessions.ReconnectSurvivesOldEvents` | server/services/sshService.js:24-132 | After a reconnect, any number of end/close/error events from the replaced connection leave the new connection registered. |
| `Sessions.CheckConnection` | server/services/sshService.js:139-190 | The check passes iff the server is registered and its socket is readable and writable. A failed check of a registered server removes it and marks it as error. |
| `Sessions.FailedCheckIsFinal` | server/services/sshService.js:139-190 | After a failed check, every later check fails and changes nothing. |
| `Sessions.Disconnect` | server/services/sshService.js:514-541 | Afterwards the server is not registered. A registered server is marked offline. Other servers are untouched. |
| `Sessions.DisconnectIdempotent` | server/services/sshService.js:514-541 | Disconnecting twice is the same as disconnecting once. |
| `Sessions.OperationsKeepValid` | server/services/sshService.js:24-190 | Events, checks and disconnects keep every registered connection number below the next fresh one. |
| `Executor.Execute` | server/services/sshService.js:246-419 | At most 3 retries. Every attempt probes the connection, so the probe count is the number of attempts made; only a failing probe on the first attempt leads to a proactive reconnect. A resolved result is the trimmed output of the last attempt, and is non-zero only once the retries are used up. A connect failure is rejected at once. A missing connection after the last retry is rejected. |
| `Executor.EarlierAttemptsRetried` | server/services/sshService.js:246-419 | `RetryUntil` holds from the first attempt up to the one that settles the call: by `RetryUntilMeans`, every earlier attempt led to a retry. |
| `Executor.RetryUntilMeans` | server/services/sshService.js:246-419 | The recursive "retry until k" predicate holds iff every attempt from r up to k retries. |
| `Executor.FirstSuccessWins` | server/services/sshService.js:246-419 | If every attempt before k retries and attempt k exits 0, the call settles at k with that attempt's trimmed output. |
| `Executor.RetryStep` | server/services/sshService.js:246-419 | An attempt that retries passes the outcome of the next attempt through unchanged. |
| `Executor.SuccessSettles` | server/services/sshService.js:354-377 | An attempt that exits 0 settles the call immediately. |
| `Executor.PersistentFailureResolves` | server/services/sshService.js:246-419 | If every attempt exits non-zero, the command runs 4 times and the last exit code and output are returned, not an error. |
| `Executor.NeverRegisteredGivesUp` | server/services/sshService.js:246-419 | If the connection never appears but reconnecting keeps succeeding, nothing is executed and the call is rejected once retries run out. |
| `Executor.ChunkLines` | server/services/sshService.js:635-664 | Every line sent for a chunk is non-empty and tagged with the chunk's stream. |
| `Executor.ChunkLinesClean` | server/services/sshService.js:635-664 | Every line sent is trimmed and holds no newline. |
| `Executor.ChunkOfLines` | server/services/sshService.js:641-646 | Splitting a chunk that is trimmed lines joined by newlines gives back exactly those lines, in order. |
| `Executor.ExecuteStream` | server/services/sshService.js:590-702 | The event list ends in a success line iff the command closed with code 0, and in an error line on rejection. The resolved stdout and stderr are the untrimmed concatenation of their chunks. The lines before the last are the chunk lines. |
| `Executor.StreamKeepsBlanks` | server/services/sshService.js:630-682 | Unlike `executeCommand`, the stream result keeps leading blanks and the trailing newline. |
| `ScriptRunner.ChosenPath` | server/services/sshService.js:889-893 | The script is run from /root iff the probe says "exists in root", otherwise from the home directory. |
| `ScriptRunner.FromRun` | server/services/sshService.js:914-934 | A run succeeds iff it exits 0. A failed run always carries a non-empty error. |
| `ScriptRunner.ExecuteNftato` | server/services/sshService.js:858-954 | Without a valid connection nothing is issued. A "not found" probe stops after the probe. Success means the script was located and the last command issued was the run command, which resolved with code 0 and whose output is returned. |
| `ScriptRunner.ChmodOnlyWhenNotExecutable` | server/services/sshService.js:896-906 | `chmod +x` is issued iff the permission check answered "not executable". |
| `ScriptRunner.ReadyScriptSucceeds` | server/services/sshService.js:858-934 | Conversely, a located, executable script that exits 0 makes the pipeline succeed. |
| `ScriptRunner.RunCommandWords` | server/services/sshService.js:908-911 | The unquoted run command splits at blanks into `bash`, the path, the action number, and the parameters' own words. |
| `ScriptRunner.Prepare` | server/services/sshService.js:763-798 | The prepare commands are issued in order and stop at the first that fails. There is no error iff every command exits 0. |
| `ScriptRunner.PrepareStopsAtFailure` | server/services/sshService.js:763-798 | If command k is the first failure, exactly the commands up to k are issued and an error is reported. |
| `ScriptRunner.Finish` | server/services/sshService.js:825-844 | The deployment succeeds iff the verification prints "success" and the copy to /root resolves. A clear of the server's rule cache is requested exactly on success; its answer is ignored. |
| `ScriptRunner.UseExisting` | server/services/sshService.js:743-757 | For an existing script, chmod is issued iff it is not executable, and nothing is streamed. |
| `ScriptRunner.Install` | server/services/sshService.js:763-844 | The install script is streamed iff every prepare command succeeded. Success needs the stream to exit 0 and the verification and copy to succeed. |
| `ScriptRunner.Deploy` | server/services/sshService.js:710-849 | An offline server or a failed connection issues nothing and fails. A clear of the rule cache is requested only after streaming, and only on success; its answer is ignored. The first command is always the existence check. |
| `ScriptRunner.ExistingScriptShortCircuits` | server/services/sshService.js:743-757 | An existing script is only made executable; nothing is downloaded or streamed. |
| `ScriptRunner.FailedPrepareAborts` | server/services/sshService.js:763-798 | A failing prepare command aborts the deployment before the install script is streamed. |
| `Nftables.OperationOf` | server/services/nftablesService.js:95-679 | A menu number maps back only to the operation that uses it. |
| `Nftables.CatalogueIsInjective` | server/services/nftablesService.js:95-679 | The action codes are pairwise distinct, at most 20, skip 12, and are decoded back to their operation. |
| `Nftables.ParameterCodes` | server/services/nftablesService.js:208-620 | Exactly the operations with codes 4, 5, 9, 10 and 15-18 take parameters. |
| `Nftables.Prerequisites` | server/services/nftablesService.js:59-88 | The prerequisites pass iff the server has a connection, the locate probe resolves, and it does not answer "not found". An unregistered server is refused with the "not connected" message. |
| `Nftables.ScriptPath` | server/services/nftablesService.js:9-52 | The home path is chosen iff the probe resolves without "not found" and without "root". The "not found" branch calls a missing deploy method and so falls back to /root. |
| `Nftables.QuotedCommandParts` | server/services/nftablesService.js:705-710 | The parameters travel as one double-quoted word: cutting the command at quotes gives the prefix, the parameters, and nothing after. |
| `Nftables.ExecuteIptatoCommand` | server/services/nftablesService.js:681-748 | Failed prerequisites are returned as they are. With parameters, the issued commands are the locate probe, the path probe and the quoted command, and success is exactly exit code 0. Without parameters, the script pipeline runs. |
| `Nftables.InboundPortsReply` | server/services/nftablesService.js:415-464 | The "no allowed ports" phrase gives empty lists. Other output is parsed. A failure carries empty lists and the error. |
| `Nftables.InboundIpsReply` | server/services/nftablesService.js:471-520 | The "no allowed IPs" phrase gives an empty list. Other output is parsed. A failure carries an empty list and the error. |
| `Nftables.Operate` | server/services/nftablesService.js:95-679 | Failed prerequisites are answered with their error. A parameterless operation succeeds exactly when the script pipeline does, and the non-listing ones answer the script's output as data and its error as the error. An operation with parameters answers the success, output and error of `_executeIptatoCommand`. |
| `Nftables.ParameterisedReply` | server/services/nftablesService.js:208-620 | An operation with parameters succeeds iff the quoted script command exits 0; its data is that command's standard output and its error the standard error; a rejected command answers "执行命令失败: " with its message and empty data. |
| `Nftables.PathProbeIsSeparate` | server/services/nftablesService.js:9-88 | The prerequisite probe and the path probe are different commands, so a script the prerequisites accept can still be reported missing by the path probe, which then falls back to /root. |
| `Nftables.InboundPortsShortCircuit` | server/services/nftablesService.js:423-455 | The port listing answers each of its three cases: the empty phrase, parsed output and failure. |
| `Nftables.InboundIpsShortCircuit` | server/services/nftablesService.js:479-511 | The IP listing answers each of its three cases: the empty phrase, parsed output and failure. |
| `Nftables.AsWrittenNeverSucceeds` | server/services/nftablesService.js:95-121 | As written, a parameterless operation never succeeds, because the method it calls does not exist. |
| `Nftables.CorrectedListingSucceeds` | server/services/nftablesService.js:415-464 | On a healthy server the corrected port listing succeeds where the as-written one fails. |
| `PortReport.StripAnsi` | server/services/nftablesService.js:758 | Removing colour codes never lengthens the text. |
| `PortReport.StripPlain` | server/services/nftablesService.js:758 | Text without an escape character is unchanged. |
| `PortReport.StripColoured` | server/services/nftablesService.js:758 | A colour code `ESC[p;qm` between plain text and the rest is removed, and nothing else is. |
| `PortReport.ParsePortOutput` | server/services/nftablesService.js:755-791 | A missing section header gives an empty list for that protocol. Output without digits gives two empty lists. |
| `PortReport.ParseRenderRoundTrip` | server/services/nftablesService.js:755-791 | Parsing the coloured report the script prints for any TCP and UDP port lists gives back exactly those lists, in order. |
| `PortReport.HeaderWithoutSpace` | server/services/nftablesService.js:766-774 | A header written `TCP端口:`, with no blank after TCP, parses to empty lists. |
| `PortReport.ParseIPOutput` | server/services/nftablesService.js:798-811 | Every token returned is a dotted quad of digit runs. Output without digits gives none. |
| `PortReport.ScanTokensAreQuads` | server/services/nftablesService.js:804 | Every token the scan takes, from any starting index, is a dotted quad. |
| `PortReport.ParseIpRoundTrip` | server/services/nftablesService.js:798-811 | Parsing the report printed for any list of addresses gives back exactly those addresses, in order. |
| `PortReport.OctetsUnchecked` | server/services/nftablesService.js:804 | The pattern does not bound octets: "300.1.1.1" is accepted. |
| `PortPattern.MatchesIffValid` | server/controllers/rulesController.js:464-478 | The hand-run automaton accepts exactly the comma-separated lists of ports and port ranges. |
| `Records.FindIndex` | server/models/Server.js:63-71 | It finds the first record with the id, and finds nothing exactly when no record has it. |
| `Records.FindById` | server/models/Rule.js:81-89 | A record is found iff some record carries the id, and the found record carries it. |
| `Records.Create` | server/models/Server.js:74-84 | The new record is appended and the others are kept in place. |
| `Records.Merge` | server/models/Server.js:87-109 | The update's fields win, fields it lacks are kept, and `updatedAt` is always the current time. |
| `Records.UpdateById` | server/models/Rule.js:105-127 | An unknown id changes nothing. Otherwise exactly the first matching record is replaced by the merge, and it is returned. |
| `Records.DeleteById` | server/models/Server.js:112-129 | An unknown id changes nothing. Otherwise the first matching record is removed and returned. |
| `Records.CreateThenFind` | server/models/Server.js:63-84 | A record created with an unused id is found by it. |
| `Records.UpdateThenFind` | server/models/Server.js:63-109 | An update that does not change the id is what a later lookup returns. |
| `Records.UpdatedField` | server/models/Rule.js:105-127 | After an update that does not change the id, each field other than `updatedAt` reads as the update's value when the update has it, and as the stored value otherwise. |
| `Records.DeleteKeepsOthers` | server/models/Server.js:112-129 | Deletion keeps the order of every other record. |
| `Records.DeleteExposesDuplicate` | server/models/Server.js:112-129 | With two records sharing an id, deleting it once leaves the second findable. |
| `ServerModel.NewServer` | server/models/Server.js:37-50 | Each defaulted field keeps a truthy given value and otherwise takes its default: port 22, password authentication, offline, no last connection, a new id and the current time. |
| `ServerModel.FormDefaults` | server/models/Server.js:37-50 | A form that omits the defaulted fields, or sends falsy values for them, gets the defaults. |
| `ServerModel.ConstructIdempotent` | server/models/Server.js:37-50 | Constructing a server from a constructed server changes nothing. |
| `RuleModel.NewRule` | server/models/Rule.js:37-53 | A new rule has exactly the rule fields. |
| `RuleModel.NewRuleBookkeeping` | server/models/Rule.js:38-52 | Each of `_id`, `description`, `createdAt` and `updatedAt` keeps a truthy given value and otherwise takes its default: the fresh id, the empty text, or the current time. |
| `RuleModel.NewRuleDefaults` | server/models/Rule.js:41-48 | A falsy protocol, action, chain or priority becomes tcp, ACCEPT, INPUT or 0. |
| `RuleModel.NewRuleAddresses` | server/models/Rule.js:42-45 | A falsy source or destination address or port becomes "any". |
| `RuleModel.NewRuleEnabled` | server/models/Rule.js:39-49 | `enabled` defaults to true only when it is missing. |
| `RuleModel.EnabledKeepsFalse` | server/models/Rule.js:37-53 | An explicit false or null `enabled` is kept, while an empty protocol is replaced. |
| `RuleModel.Find` | server/models/Rule.js:56-78 | The result is the stored list filtered, in order and with duplicates kept, to the rules that match every query field; an empty query returns every rule. |
| `RuleModel.KeepConcat` | server/models/Rule.js:56-78 | Filtering distributes over concatenation, and a one-rule list is kept iff the rule passes, so the filter keeps exactly the passing rules in their order. |
| `RuleModel.EmptyQueryShortcut` | server/models/Rule.js:56-78 | The empty-query shortcut agrees with filtering by the empty query. |
| `RuleModel.DeleteByServer` | server/models/Rule.js:150-167 | The kept rules are the stored rules of other servers, in their order and with duplicates kept. The count is what was removed, and the file is written only if something was. |
| `RuleModel.DeletedCountIsOwned` | server/models/Rule.js:150-167 | The count reported is the number of rules the server owned. |
| `RuleModel.DeleteByServerIdempotent` | server/models/Rule.js:150-167 | A second deletion removes and writes nothing. |
| `RulesCache.Write` | server/services/cacheService.js:30-37 | A write is always attempted and answers whether it succeeded. A failed one leaves the file as it was. After a successful one every server reads as the written object holds it, except that entries kept on an array-valued `rules` are lost and read as absent. |
| `RulesCache.Parse` | server/services/cacheService.js:14-22 | A missing or unreadable file reads as an empty object of entries. A falsy `rules` stays falsy, and an array-valued `rules` carries no entries. |
| `RulesCache.Serialise` | server/services/cacheService.js:30-37 | Writing and parsing again gives back the object, except that entries set as properties of an array are dropped. |
| `RulesCache.GetServer` | server/services/cacheService.js:45-53 | An entry is found iff `rules` is an object holding the server id, and it is that entry. |
| `RulesCache.SaveServer` | server/services/cacheService.js:61-78 | A successful save reads back as the saved data stamped with the current time, unless `rules` is an array: then the save still answers true but the file is unchanged. A failed one changes nothing. Every other server reads as before. |
| `RulesCache.UpdateItem` | server/services/cacheService.js:88-106 | The file is written iff it has a `rules` value, and the update succeeds iff that write does. In a file of the cache's own a successful update sets one key of one server and stamps it, keeping every other key and server. On an array-valued `rules` it answers true and changes nothing. |
| `RulesCache.Clear` | server/services/cacheService.js:114-127 | The file is written iff the server has an entry. Clearing succeeds iff there was none or the write succeeds, and then the server reads as absent. A failure changes nothing, and every other server reads as before. |
| `RulesCache.LastUpdate` | server/services/cacheService.js:135-147 | A time stamp exists iff the server has an entry, and it is that entry's stamp. |
| `RulesCache.UpdateThenGet` | server/services/cacheService.js:45-106 | In a file of the cache's own, reading the server after an update gives the new value and time stamp. In the rule model's array-shaped file, or one without `rules`, nothing reads back. |
| `RulesCache.UpdateCreatesEntry` | server/services/cacheService.js:88-106 | In a file of the cache's own, updating an uncached server creates an entry holding only that key. |
| `RulesCache.UpdateKeepsOthers` | server/services/cacheService.js:88-106 | Updating one server's cached item leaves every other server's entry as it was. |
| `RulesCache.SaveDiscardsOldKeys` | server/services/cacheService.js:61-78 | Unless `rules` is an array, saving a server replaces its data; keys not saved are gone. |
| `RulesCache.ClearThenGet` | server/services/cacheService.js:114-147 | After clearing, the server has neither data nor time stamp, and other servers are untouched. |
| `RulesCache.ClearIdempotent` | server/services/cacheService.js:114-127 | Clearing again succeeds without writing. |
| `RulesCache.SharedFileLosesWrites` | server/services/cacheService.js:8-106 | On the rule model's `{rules: []}` file, a successful save and a successful update both answer true, leave the file unchanged and read back nothing; a clear finds nothing to remove. |
| `RulesCache.OwnFileKeepsWrites` | server/services/cacheService.js:14-127 | A file of the cache's own keeps that shape through every save, update and clear, and a successful save reads back. |
| `RulesController.ReadKey` | server/controllers/rulesController.js:375-397 | Exactly the four read operations write the cache. |
| `RulesController.Forward` | server/controllers/rulesController.js:80-424 | A missing required field is refused with 400 before the service is called. Otherwise the service's answer is relayed with 200 or 400. Only successful reads change the cache. |
| `RulesController.ReadWritesThrough` | server/controllers/rulesController.js:375-397 | In a file of the cache's own, a successful read stores its data under its key, stamped now. In the rule model's array-shaped file nothing reads back. Other servers' entries are always left alone, and a failed read changes nothing. |
| `RulesController.ForwardAnswerIgnoresCache` | server/controllers/rulesController.js:375-397 | A failed cache write never changes the answer. |
| `RulesController.RefreshPorts` | server/controllers/rulesController.js:483-494 | After a disallow the ports are listed again and cached only when the listing succeeds. |
| `RulesController.DisallowPorts` | server/controllers/rulesController.js:459-517 | An empty list gets 400. A malformed list gets 400 without a call. An SSH error gets 403. Otherwise the answer is 200 or 400, and a success refreshes the cached ports. |
| `RulesController.DisallowAnswerIgnoresCache` | server/controllers/rulesController.js:459-517 | The disallow answer does not depend on whether the cache write succeeds. |
| `RulesController.DisallowRefreshesPorts` | server/controllers/rulesController.js:483-494 | After a successful disallow and listing, a file of the cache's own holds the new listing; any other file reads back nothing for the server. |
| `RulesController.FormatRefused` | server/controllers/rulesController.js:464-478 | Every non-empty list the pattern rejects gets the format error. |
| `RulesController.MalformedListsRefused` | server/controllers/rulesController.js:464-478 | A trailing comma, a dangling dash and letters are refused. |
| `RulesController.ProtectionDefaults` | server/controllers/rulesController.js:717-725 | Each falsy setting takes its default (1, 400, 400, 300, 24) and each truthy one is kept. |
| `RulesController.DefaultsReplaceFalsy` | server/controllers/rulesController.js:717-725 | Applying the defaults twice is applying them once. |
| `RulesController.SetupCustomPortProtection` | server/controllers/rulesController.js:705-739 | A missing port gets 400. Otherwise the missing service method makes it 500. The cache is never touched. |
| `RulesController.ManageIpLists` | server/controllers/rulesController.js:744-773 | A missing action or address gets 400. Otherwise the answer is 500. |
| `RulesController.SetupDdosProtection` | server/controllers/rulesController.js:682-700 | The service method does not exist, so the answer is always 500 carrying the `TypeError` message, and the cache is not touched. |
| `RulesController.ViewDefenseStatus` | server/controllers/rulesController.js:778-801 | Always answers 500 without touching the cache. |
| `RulesController.GetCache` | server/controllers/rulesController.js:24-47 | 404 iff the server has no cache entry, otherwise 200 with it. |
| `RulesController.GetLastUpdate` | server/controllers/rulesController.js:52-75 | 200 iff a non-empty time stamp exists, otherwise 404. |
| `RulesController.ClearCache` | server/controllers/rulesController.js:630-646 | Always 200. Success iff nothing was cached or the write succeeded, and then the entry is gone. |
| `RulesController.UpdateCache` | server/controllers/rulesController.js:651-677 | An empty key gets 400. Otherwise the answer is 200, with success iff the write succeeds and the file has a `rules` value. In a file of the cache's own a successful write stores the value under the key. An array-valued `rules` is left unchanged, and a failure leaves the cache unchanged. |
| `ServerController.Strip` | server/controllers/serverController.js:7-28 | The password and private key are removed, and every other field is kept. |
| `ServerController.ListServers` | server/controllers/serverController.js:7-28 | Every server is listed, in order, without its secrets. |
| `ServerController.ShowServer` | server/controllers/serverController.js:33-58 | 404 iff there is no server with that id. Otherwise the stripped record is returned. |
| `ServerController.CreateServer` | server/controllers/serverController.js:63-93 | Exactly one server is appended, built only from the accepted form fields, and answered without secrets. |
| `ServerController.CreateIgnoresControlFields` | server/controllers/serverController.js:63-93 | A client cannot choose the id, status or last connection of a new server. |
| `ServerController.WithoutEmptySecrets` | server/controllers/serverController.js:98-136 | A secret stays in the update iff it is truthy. Other fields pass through. |
| `ServerController.UpdateServer` | server/controllers/serverController.js:98-136 | An unknown id gets 404 and changes nothing. Otherwise the record is merged and answered stripped. |
| `ServerController.UpdateKeepsSecrets` | server/controllers/serverController.js:98-136 | An empty secret in the form keeps the stored one, a given one replaces it, and neither is answered. |
| `ServerController.DeleteServer` | server/controllers/serverController.js:141-169 | 404 iff the id is unknown. The server is removed and its connection closed. |
| `ServerController.ConnectServer` | server/controllers/serverController.js:174-247 | A valid existing connection is reused and marked online. Otherwise the server is reconnected; a registered connection that fails its check is first marked error with its last connection erased. The reconnect then marks the record online on success. A failure answers 500 and marks it error: one reported by the connection's `error` event erases the last connection, while a synchronous throw of `conn.connect` is written only by the `catch` and keeps it. |
| `ServerController.AfterCheck` | server/services/sshService.js:139-190 | The health check rewrites the server record iff the server is registered and the check fails, and then marks it error and erases its last connection. |
| `ServerController.ThrownConnectKeepsLastConnection` | server/controllers/serverController.js:226-246 | A connect that throws before any connection event is marked `error` only by the handler's `catch`, which keeps the last connection time; only a failing check of a registered connection drops it first. The answer is 500. |
| `ServerController.FailedConnectErases` | server/services/sshService.js:69-77 | A connect that has to reconnect and fails through the connection's `error` event answers 500 and leaves the server marked error without a last connection. |
| `ServerController.ConnectedMeansOnline` | server/controllers/serverController.js:174-247 | Whenever connecting answers 200, the stored server is online. |
| `ServerController.Reconciled` | server/controllers/serverController.js:396-410 | The stored status is rewritten exactly when it disagrees with the connection's validity. |
| `ServerController.Reported` | server/controllers/serverController.js:415 | The reported status is online iff the connection is valid, and otherwise error or offline. |
| `ServerController.CheckServerStatus` | server/controllers/serverController.js:380-429 | An unknown server gets 404. Otherwise 200, reporting the status and last connection read before the check. The stored record first takes the check's own error write, then is reconciled against the status read before the check. |
| `ServerController.StoredAfterCheck` | server/controllers/serverController.js:380-429 | After a status check the stored status is online for a valid connection, offline if it was online, error if a registered connection failed its check, and otherwise as before; the last connection is erased exactly when a registered connection failed. |
| `ServerController.ReconciliationConverges` | server/controllers/serverController.js:380-429 | After one check the stored status is online iff the connection is valid. A second check, with the connection still registered only if the first check passed, writes nothing. |
| `ServerController.ReportedMatchesStored` | server/controllers/serverController.js:396-415 | For the three stored statuses, the status reported differs from the status stored afterwards exactly when a registered connection fails its check while the server is stored offline: the check writes error but offline is reported. |
| `ServerController.CommandChecks` | server/controllers/serverController.js:289-340 | An empty command gets 400. The command runs iff it is given, the server exists, a connection is present or re-established, and the check passes. When it stops early, the records are those the connection steps left. |
| `ServerController.CommandStore` | server/controllers/serverController.js:289-340 | With a command and an existing server, the record ends in status error without a last connection time if the reconnect fails through the `error` event or the check fails. A reconnect whose `conn.connect` throws writes nothing. The record ends online, stamped now, after a successful reconnect, and is unchanged for a registered connection that passes. A missing command or server writes nothing. |
| `ServerController.ExecuteCommandAsWritten` | server/controllers/serverController.js:289-375 | Once the checks pass, the request goes unanswered exactly when the executor rejects. |
| `ServerController.ExecuteCommand` | server/controllers/serverController.js:289-375 | Every request is answered and there is at most one executor call. A run gets 200 iff the executor resolves and 500 with its message otherwise. The records are those the connection steps left. |
| `ServerController.AsWrittenDiffersOnlyOnFailure` | server/controllers/serverController.js:289-375 | The as-written and corrected handlers issue the same commands, and agree whenever the as-written one answers. |
| `ServerController.FailedCommandGoesUnanswered` | server/controllers/serverController.js:354-364 | A concrete executor failure leaves the as-written request unanswered while the corrected one answers 500. |
| `ServerController.Location` | server/controllers/serverController.js:659-661 | The script counts as installed iff the probe mentions either location. The home directory wins when both do. |
| `ServerController.OppositePriority` | server/controllers/serverController.js:659-661 | This check prefers the home copy while the script pipeline prefers /root. |
| `ServerController.CheckScriptExists` | server/controllers/serverController.js:623-695 | A missing server or an invalid connection issues nothing. Otherwise the probe is issued, and for an installed script the version query runs from the detected location. A registered connection that fails its check leaves the record marked as the failed check does. |
| `ClientCache.Initial` | client/src/views/RulesScript.js:56-73 | The view starts with the four cached keys. |
| `ClientCache.Invalidate` | client/src/views/RulesScript.js:3977-3997 | Invalidating zeroes the key's stamp and empties its entry. The list keys become empty lists. Other keys are untouched, and an empty key is ignored. |
| `ClientCache.InvalidatedIsStale` | client/src/views/RulesScript.js:3977-3997 | An invalidated key is no longer valid, and the validity of every other key is unchanged. |
| `ClientCache.Dedupe` | client/src/views/RulesScript.js:132-156 | `[...new Set(s)]` has the same values as `s`, each once. |
| `ClientCache.DedupeKeepsFirstOccurrenceOrder` | client/src/views/RulesScript.js:132-156 | The de-duplicated values keep the order of their first occurrence. |
| `ClientCache.DedupeDistinct` | client/src/views/RulesScript.js:132-156 | A list without duplicates is left as it is. |
| `ClientCache.DedupeAbsorbs` | client/src/views/RulesScript.js:132-156 | Appending values already present changes nothing. |
| `ClientCache.FormattedPorts` | client/src/views/RulesScript.js:132-156 | The rows list the distinct union of the TCP and UDP ports, in order of first occurrence, each tagged TCP/UDP. A legacy list is passed through. |
| `ClientCache.SharedPortsShownOnce` | client/src/views/RulesScript.js:132-156 | Identical TCP and UDP lists give one row per port, in order. |
| `ClientCache.Without` | client/src/views/RulesScript.js:4477-4482 | The filtered list lacks the port and keeps every other value. |
| `ClientCache.WithoutConcat` | client/src/views/RulesScript.js:4477-4482 | Filtering distributes over concatenation and a one-value list is dropped iff it is the port, so the filter keeps the other values in order, with duplicates. |
| `ClientCache.RemovePort` | client/src/views/RulesScript.js:4474-4486 | The port is filtered out of whichever of the cached TCP and UDP lists exist. Nothing else changes. |
| `ClientCache.ExecuteDisallowPort` | client/src/views/RulesScript.js:4461-4498 | An undefined or null port makes `toString` throw, so nothing is sent and the cache is kept. Otherwise the port is sent as text, and the cache loses the port only on success. |
| `ClientCache.DisallowedPortLeavesTable` | client/src/views/RulesScript.js:4461-4498 | After a successful disallow that was sent, the port no longer appears in the table, and every other port still does. |
| `ClientGuard.ManagementPorts` | client/src/views/RulesScript.js:3908-3919 | Port 22, a non-zero detected SSH port and the server's numeric configured port are protected, and no other port is. |
| `ClientGuard.IsSshPort` | client/src/views/RulesScript.js:3908-3919 | A port is the SSH port iff it parses to one of the management ports. |
| `ClientGuard.IsCriticalPort` | client/src/views/RulesScript.js:4457-4459 | A port is critical iff it parses to one of 22, 80, 443, 3306, 6379, 8080, 8443, 27017 and 5432. |
| `ClientGuard.NullishNotParsed` | client/src/views/RulesScript.js:4457-4459 | `parseInt` of an undefined or null port is NaN. |
| `ClientGuard.SuffixIgnored` | client/src/views/RulesScript.js:3908-3919 | Text after the leading digits is ignored by both checks. |
| `ClientGuard.TextServerPortNotRecognised` | client/src/views/RulesScript.js:3913 | For every port n other than 22 that the detected SSH port does not equal, a server whose port is stored as the text of n does not protect port n, because the comparison with the number is strict. |
| `ClientGuard.DisallowPort` | client/src/views/RulesScript.js:3402-3428 | A request is sent iff a server is selected, the port is neither undefined nor null nor the SSH port, and a critical port was confirmed. An undefined or null port reaches `executeDisallowPort`, whose `toString` throws, and the thrown message is shown. Nothing changes when none is sent. |
| `ClientGuard.DefaultSshPortNeverDisallowed` | client/src/views/RulesScript.js:3402-3428 | Port 22, in any spelling that parses to 22, is never sent. |
| `ClientGuard.DetectedSshPortNeverDisallowed` | client/src/views/RulesScript.js:3908-3919 | A port that parses to the non-zero detected SSH port is never sent and leaves the cache alone. |
| `ClientGuard.ConfirmationOnlyForCriticalPorts` | client/src/views/RulesScript.js:3402-3428 | The confirmation answer matters only for critical ports. |
| `ClientGuard.InitialDebounce` | client/src/views/RulesScript.js:102-108 | No operation is cooling down at start. |
| `ClientGuard.IsIpOperationDebounced` | client/src/views/RulesScript.js:4308-4335 | An operation is blocked iff the same action on the same address is still cooling down. Otherwise it is let through and starts a two-second cool-down. |
| `ClientGuard.RepeatsBlocked` | client/src/views/RulesScript.js:4308-4335 | Repeats during the cool-down are all blocked and leave the state unchanged. |
| `ClientGuard.BurstLetThroughOnce` | client/src/views/RulesScript.js:4308-4335 | A burst of the same request within two seconds goes through exactly once. |
| `ClientGuard.OtherTargetPasses` | client/src/views/RulesScript.js:4308-4335 | A different action or address is never blocked. |
| `ClientGuard.PassesAfterCooldown` | client/src/views/RulesScript.js:4308-4335 | A request two seconds or more after an accepted one passes. |
| `ClientGuard.Run` | client/src/views/RulesScript.js:4308-4335 | Over a run of requests, if none is let through the state is as before. Otherwise the state is the one left by letting some request through, and every later request is blocked by it, so it is the last one let through. |
| `ClientGuard.Leftmost` | client/src/views/RulesScript.js:445-447 | The match found is the leftmost one. Nothing is found iff the pattern matches nowhere. |
| `ClientGuard.Detected` | client/src/views/RulesScript.js:445-447 | The three patterns are tried in order. Nothing is detected iff none matches. |
| `ClientGuard.ExtractSshPort` | client/src/views/RulesScript.js:443-451 | A non-string or unmatched report keeps the current port. A match sets it to the decimal value of the digits. |
| `ClientGuard.ReportRoundTrip` | client/src/views/RulesScript.js:443-451 | A report line "SSH端口: n", in any letter case, with any blanks and either colon, yields exactly port n. |
| `Text.TrimIdempotent` | server/services/sshService.js:372-376 | Trimming twice is trimming once. |
| `Text.TrimOfUntrimmed` | server/services/sshService.js:372-376 | Text without blank ends is unchanged by trimming. |
| `Text.JoinSplit` | server/services/sshService.js:641 | Joining the pieces of a split restores the text. |
| `Text.SplitJoin` | server/services/sshService.js:641 | Splitting text joined from separator-free pieces gives back those pieces. |
| `Text.NatToStringRoundTrip` | client/src/views/RulesScript.js:448 | Reading a printed number back gives the number. |
| `Text.ParseIntReads` | client/src/views/RulesScript.js:449 | `parseInt` of leading blanks, an optional sign, a digit run and text not starting with a digit is the signed decimal value of the digit run. |
| `Text.ParseIntNoNumber` | client/src/views/RulesScript.js:4458 | Text starting with something other than a blank, a sign or a digit parses to NaN. |
| `Text.ParseIntOfNat` | client/src/views/RulesScript.js:448 | `parseInt` of a printed number is that number. |
| `JsValues.OrLaws` | server/models/Server.js:38-49 | `a \|\| b` is `a` when `a` is truthy and `b` otherwise; `\|\|` is associative and a repeated fallback changes nothing. |

## Left out

- **Transport.** The SSH transport itself (the ssh2 library, keys, the
  algorithm list) is left out. A connection is an opaque number, and its
  readiness is the event sequence that is passed in.
- **Timers.** Timers, such as the 15-second warnings and the connection
  timeout, are left out. They only log, or they arrive as a `timeout`
  event.
- **Clocks.** Clocks are parameters; the debounce's timer is its firing
  time.
- **Retry delays.** The two-second retry delay and the half-second settling
  wait of `executeCommand` are left out, because they change no outcome.
- **Emergency mode.** `executeCommand`'s emergency branch is left out; the
  `EMERGENCY_MODE` switch is constant false (sshService.js:12).
- **Races.** Concurrent requests and races between overlapping awaits are
  left out. Each handler is modelled as if it ran alone.
- **JSON persistence.** The storage is a value. Reading gives the stored
  list, writing either replaces it or fails. Byte layout and partial writes
  are not modelled. The rule cache's file is modelled by its shape:
  missing or unreadable, without `rules`, with `rules` an array, or with
  `rules` an object of entries. A truthy `rules` that is neither is left
  out.
- **Array-index ids.** A server id that is a canonical array index would
  read and write an element of an array-valued `rules`. Server ids are
  generated uuids (Server.js:38), so this case is left out.
- RulesController.UpdateCache: an `undefined` value is stored as given,
  while `JSON.stringify` drops a key whose value is `undefined`. The
  source would stamp the entry and leave the key absent.
- **File transfer.** SFTP upload and download (sshService.js:428-507) and
  the emergency rescue path (sshService.js:198-237) are left out. They
  transfer files and do not decide anything the core reports.
- **Disconnecting everything.** `disconnectAll` (sshService.js:547-570) is
  left out; it is the per-server `Disconnect` applied to each entry.
- **Missing service methods.** Calls to methods that do not exist are
  modelled by their effect:
  - `sshService.executeIptato` is taken as `executeNftato` in the
    corrected model (see Findings).
  - `sshService.deployIptato` throws, so `_getScriptPath` falls back to
    /root.
  - `nftablesService.setupDdosProtection` and the other defence methods
    behind rulesController.js:682-801 do not exist, so their handlers
    answer 500 (`RulesController.SetupDdosProtection` and its neighbours).
- **Other controller actions.** `testConnection` (serverController.js:700-734),
  `deployIptato` (serverController.js:434-540), `getServerLogs`
  (serverController.js:545-618) and `disconnectServer`
  (serverController.js:252-284) are left out. They either call methods
  that do not exist, only read logs, or reduce to `Sessions.Disconnect`.
- **Deployment texts.** The deployment's log texts and download URL
  variants are left out. The model keeps the command order and the
  success conditions.
- Executor.Execute: the probe's own effect on the registry and the stored
  status (eviction and the error mark) is not part of its result; it is
  stated by `Sessions.CheckConnection`.
- **Exec throws.** A synchronous throw of `conn.exec` inside the
  executor's promise (sshService.js:313) is not modelled. The source would
  reject at once, without retrying and without the surrounding `try`
  catching it, and would leave the 60-second timer running.
- **Number parsing.** `parseInt` is modelled for digit prefixes, without
  fractions, exponents or the loss of precision above 2^53. NaN is `None`.
- **Retry settings.** The client's `retryConfig` (RulesScript.js:95-98)
  and its retried fetches are left out. A fetch is a single answer.
- **SSH port fallback.** The catch branch of the SSH-port detection
  (RulesScript.js:452-457) is left out. Matching a string cannot throw, so
  the fallback is unreachable.
- **Duplicate client methods.** Where the view defines a method twice,
  the model follows the later definition, which is the one JavaScript
  keeps.
- RuleModel.NewRule: its contract only states the key set. The default of
  each field is stated by `NewRuleDefaults`, `NewRuleAddresses`,
  `NewRuleEnabled` and `NewRuleBookkeeping`.
- **Repeated commands.** The server oracle answers a command text the same
  way each time it is issued. The parameterless operations issue the
  location probe twice, once in `_checkPrerequisites` and once in
  `executeNftato`, so the model cannot express the script disappearing
  between the two; `executeNftato`'s "not found" branch is then unreachable
  after the prerequisites pass.
- **Error message wording.** `ClientGuard.ThrownNotice` takes the
  `TypeError` message of the V8 engine for `undefined.toString()`; other
  engines word it differently.
- **Authentication.** Users, log-in, the middleware, routes and the Vuex
  stores are left out. They carry no firewall logic.

## Findings

| source | as written | input that shows it | evidently intended | confidence | as-written member | corrected member |
|---|---|---|---|---|---|---|
| server/services/nftablesService.js:103 | The parameterless operations (getBlockList, the blocks and unblocks, getInboundPorts, getInboundIPs, getSSHPort, clearAllRules) call `sshService.executeIptato`. sshService defines no such method, so the call throws and every one of them reports failure. | Any server that passes the prerequisites, e.g. a healthy server answering the port listing with exit code 0. | Run the script through `executeNftato`. | not executed | `Nftables.AsWrittenNeverSucceeds` | `Nftables.CorrectedListingSucceeds` |
| server/services/cacheService.js:8 | The cache file is `rules.json` in the data directory, the same file the rule model uses. Without a separate data directory that file is created as `{rules: []}`. The cache then stores entries as properties of that array. `JSON.stringify` drops them, so every save and update answers true but nothing is kept. | No data directory, a file holding `{rules: []}`, `saveServerRulesCache("s1", d)` with a successful write, then `getServerRulesCache("s1")`: it answers null. | The cache keeps a file of its own, so it reads back what it wrote. | not executed | `RulesCache.SharedFileLosesWrites` | `RulesCache.OwnFileKeepsWrites` |
| server/controllers/serverController.js:363 | The `catch` of `executeCommand` reads `serverId`, which was declared with `const` inside the `try` block. An executor failure therefore raises a ReferenceError inside the handler, and the request is never answered. | Server "s1", registered and valid, command "uptime", and the executor rejects after its retries. | Answer 500 with the executor's message. | not executed | `ServerController.FailedCommandGoesUnanswered` | `ServerController.ExecuteCommand` |

Notes:

- **Opposite path priority.** `checkScriptExists` (serverController.js:659-661)
  prefers the home copy, while `executeNftato` (sshService.js:889-893)
  prefers /root. `ServerController.OppositePriority` states the
  difference. It is a difference in behaviour, not a proven defect.
- **SSH port stored as text.** A server whose port is stored as text is
  not recognised as its own SSH port by the client guard
  (`ClientGuard.TextServerPortNotRecognised`), because the comparison is
  strict.
- **Header without a blank.** A port report whose header is written
  `TCP端口:`, with no blank after TCP, parses to empty lists, because the
  code's pattern needs a blank there (`PortReport.HeaderWithoutSpace`).
