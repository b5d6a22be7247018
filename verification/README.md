# NetRouter verification

A Dafny model of the stateful parts of NetRouter, with proofs of what they keep over
whole runs:

- the daemon's staged configuration changes, over a file system with volatile and
  durable contents (`FileSystem`, `StagedConfig`, `StagedRuns`,
  `StagedScenarios`, `StagedNames`, `StagedLive`, `StagedReloads`, `Manager`, `Daemon`);
- the dnsmasq and nftables generators, their texts read back, and what the firewall
  decides over packet traces while files are loaded (`Ipv4`, `DhcpDns`, `Firewall`,
  `FirewallNat`, `FirewallText`, `FirewallTraces`);
- the JSON configuration store (`Codec`, `CodecDocuments`, `ConfigSchema`,
  `ConfigMeaning`, `ConfigStore`);
- requests and responses on one connection, the handler loop, and the life of the
  server (`Protocol`, `ProtocolWire`, `ProtocolSplice`, `ManagerClient`, `Handler`,
  `Service`);
- the traffic sampler and the slices it hands out (`Traffic`, `TrafficHistory`,
  `TrafficSampler`);
- the development server's log files and the browser's debug collector (`LogFile`,
  `Outbox`, `Sanitize`);
- the desktop's window list, and the patterns for connection targets and interface names
  (`Windows`, `WindowHistory`, `Recogniser`, `NamePatterns`).

`Wrappers`, `Text` and `Names` are shared. Code that changes state step by step is
modelled by classes and methods; what runs concurrently is also a step machine, and the
theorems are about all of its runs. `dafny verify dfyconfig.toml` checks everything.

## What the proofs found

- The promise of the repository's README.md (line 23), that content which the validators
  reject never replaces the active file, holds in every run
  (`StagedConfig.OnlyValidatedBecomesActive`), provided that creation returns no temporary
  name which an unfinished request still claims. The deferred removal runs after the rename
  has freed the name, so exclusive creation alone does not give that; wherever a
  claimed name is returned, the violation can be reached (`StagedNames.ClaimedNameBreaks`).
- An apply that fails after the rename (opening or synchronising the directory, or the
  reload) leaves the new file active; `StagedConfig.OutcomeTellsReplacement` says exactly
  which outcomes do.
- Kernel and file hold the same ruleset as long as no firewall request loads while another
  is between load and rename, and no firewall rename fails (`StagedLive.OrderlyAgrees`).
  Breaking either can split them (`StagedLive.DisorderSplits`).
- `nft -f` adds rules to chains that exist, and the generated file does not flush them. So
  rules of earlier files stay in force: what is forwarded was opened from the LAN to the
  WAN of some file loaded before, and of the last file exactly under the condition of
  `FirewallTraces.LastFileAccountsIff` (for verdicts: `Firewall.LiveMatchesLastIff`).
  Swapping the interfaces leaves the old direction open
  (`FirewallTraces.SwappedInterfacesStayOpen`).
- Every flow that is let across leaves with the router's address, under any history of
  loads (`FirewallNat.NewForwardIsTranslated`, `FirewallTraces.ForwardedIsTranslated`).
- `Store.Save` does not synchronise the directory: after success a crash may still bring
  the old file back (`ConfigStore.Store.SaveAtomicLocked`).
- Importing an export restores a configuration exactly when no slice under `omitempty` is
  empty without being nil (`ConfigStore.ImportOfExport`, `ConfigStore.EmptyPeersAreDropped`).
- In sequential use of a connection, one response that a call gave up on makes every later
  call fail on correlation (`Protocol.MismatchIffAbandoned`).
- Every call has its own decoder, which reads a long response in pieces. While calls take
  turns by whole responses, an accepted response is the call's own
  (`ProtocolWire.ReadAnswersAreOwn`). If overlapping calls alternate inside responses, a
  call can accept the beginning of one with the end of another
  (`ProtocolWire.SpliceIsAccepted`, `ProtocolSplice.SpliceHappens`).
- A connection accepted before the listener closed may register after the cancel sweep and
  then stays open until its own handler closes it (`Service.LateRegistration`,
  `Service.LateStaysOpen`); a connection the sweep does not close may be between `Delete`
  and `Close` (`Service.SweptIsClosed`).
- `JSON.stringify` throws on a BigInt, which sanitising lets through; by then the report
  has drained all three buffers (`Outbox.ReportLosesIff`, `Outbox.BigIntIsLost`).
- Draining events while others of their kind are under way, and only that, can put a buffer
  out of order (`Outbox.ReportKeepsOrderIff`).
- Multiplying a byte count by 8 in 64 bits loses the rate exactly when a counter grows by
  2^61 or more between samples (`Traffic.RateIsExactIff`).
- Closing the active window leaves an active id without a window, and maximising makes a
  window active without raising it (`Windows.ActiveMayDangle`); `Windows.ActiveIff` says
  for every run when the active window exists and when it is on top.
- The browser's pattern accepts addresses with leading zeros, which the daemon's parser
  refuses, and differs in nothing else (`Recogniser.ParserIsStricter`).

## Model

| member | source | states |
|---|---|---|
| StagedConfig.OnlyValidatedBecomesActive | native/internal/network/services.go:14-62 | in every run of any number of interleaved requests with failures, the active file, and what a crash at any moment leaves of it, is the initial content or the whole of what some request rendered and the validator (and for the firewall the live load) accepted from that request's own file; no request gets a temporary name that an unfinished one still claims |
| StagedConfig.SuccessIsDurable | native/internal/network/services.go:126-168 | after a request has succeeded, a crash in any later state finds its content or that of a request that replaced the file after it |
| StagedConfig.OutcomeTellsReplacement | native/internal/network/services.go:27-36 | a finished request replaced the file if and only if it succeeded or failed at one of the steps after the rename |
| StagedConfig.NextKeepsInv | native/internal/network/services.go:126-168 | every step of every request, succeeding, failing or partly done, keeps the invariant of the system |
| StagedConfig.RunKeepsInv | native/internal/network/services.go:14-62 | the invariant holds in every reachable state |
| StagedScenarios.NameReuseBreaksValidation | native/internal/network/services.go:135 | if creation may return any free name, then for any three DHCP requests of which the last has a text of its own a run exists after which the active file holds that text and no validator has accepted it |
| StagedNames.ClaimedNameBreaks | native/internal/network/services.go:135 | from any state the invariant allows, giving a request a name that an unfinished one still claims leads, with one more request, to a text in the active file that no validator has accepted |
| StagedScenarios.OverlapSplitsLiveFromDisk | native/internal/network/services.go:55-60 | two overlapping firewall requests can leave the last loaded ruleset different from the file, starting from no file at all |
| StagedLive.OrderlyAgrees | native/internal/network/services.go:39-62 | in every run in which no firewall request loads while another is between its load and its rename, and no firewall rename fails, the file is the last ruleset loaded whenever no request is in between |
| StagedLive.DisorderSplits | native/internal/network/services.go:52-60 | from any state of such a run, any step that breaks either condition leads, if the texts differ, to a state with no request in between where file and kernel differ |
| StagedLive.SecondLoadSplits | native/internal/network/services.go:52-60 | after a second load while one request is in between, both can replace the file in the opposite order |
| StagedLive.FailedRenameSplits | native/internal/network/services.go:56-60 | a rename that fails leaves the new ruleset in the kernel and the old one in the file |
| Manager.StageWrite | native/internal/network/services.go:126-157 | success gives a durable file with exactly the contents under a fresh name, and no other name leads to it, now or after a crash; failure leaves no temporary name behind unless its removal failed; no other file changes at any step |
| Manager.CommitStaged | native/internal/network/services.go:159-168 | what is active and what is durable for each way it can end |
| Manager.ApplyDhcpDns | native/internal/network/services.go:14-37 | by outcome: which file is active, that this very call had it accepted, when it survives every crash, and that dnsmasq was asked to reload exactly when that text was in the file, successfully if and only if the call succeeds; without root nothing is touched, and no temporary name is left unless its removal failed |
| Manager.ApplyFirewall | native/internal/network/services.go:39-62 | by outcome: the active file, the rules in the kernel and what this call had accepted; kernel and file differ after a replacement that failed; without root nothing is touched, and no temporary name is left unless its removal failed |
| Daemon.Daemon.Apply | native/internal/network/services.go:14-62 | the request as the code runs it, call by call, while other requests take any steps of the same machine between its own: it replaced the file if and only if it succeeded or failed after the rename, then with its own text accepted (and for the firewall loaded) from its own file; after success or a failed reload the directory was synchronised after that, and dnsmasq was told if and only if a DHCP request succeeded |
| StagedReloads.SuccessIsTold | native/internal/network/services.go:30-35 | in every run, a finished DHCP request has had dnsmasq reload if and only if it succeeded, and tried in vain if and only if that is its outcome; at that moment the file held its own text or that of a request that replaced the file after it; nobody else asks, and nobody twice |
| Ipv4.PrintParses | native/internal/network/services.go:89-93 | every address, printed in dotted form, parses back to itself |
| Ipv4.DottedReads | native/internal/network/services.go:69-93 | four numerals below 256 with dots between them denote the address with the first as its most significant byte |
| Ipv4.PrefixReads | native/internal/network/services.go:68 | an address, a slash and a length up to 32 denote that prefix |
| Ipv4.ContainsIsInterval | native/internal/network/services.go:73 | prefix match by exclusive or and shift is membership in one aligned interval, for lengths 0 to 32 and unmasked bases (section 3.1 of RFC 4632) |
| Ipv4.ContainsIsConvex | native/internal/network/services.go:77-81 | whatever lies between two addresses of a prefix lies in it |
| DhcpDns.CanonicalServers | native/internal/network/services.go:87-94 | the loop accepts exactly lists of addresses and prints each canonically |
| DhcpDns.RenderDhcpDns | native/internal/network/services.go:64-99 | the generator computes the specified text or the first fault in order |
| DhcpDns.AcceptedIffAcceptable | native/internal/network/services.go:64-97 | a text is produced if and only if every field is acceptable, stated independently of the order of checks |
| DhcpDns.FirstFaultIsReported | native/internal/network/services.go:65-97 | a fault is reported if and only if the request does not avoid it and avoids all that are checked before it |
| DhcpDns.RenderedReadsBack | native/internal/network/services.go:98 | a reader with its own keywords that must understand every line finds five directives: the interface, binding to interfaces, the range with the lease time (even with commas in it), the gateway as router option 3 and the servers as DNS option 6 (sections 3.5 and 3.8 of RFC 2132), all with the values of the request |
| DhcpDns.PoolStaysInSubnet | native/internal/network/services.go:76-83 | on success every address of a range in the text is in the subnet |
| Firewall.ProgramDecides | native/internal/network/services.go:114 | exactly which packets the emitted chains let through, on every hook |
| FirewallTraces.TrackedIsRooted | native/internal/network/services.go:114 | whatever rules are loaded when, every tracked flow descends from one opened by a packet let through as new |
| FirewallTraces.AdmittedIsRooted | native/internal/network/services.go:114 | whatever rules are loaded when, every packet let through belongs or relates to such a flow |
| FirewallTraces.ForwardedComesFromLan | native/internal/network/services.go:55 | over every trace with generated files loaded at any moment, a forwarded packet belongs or relates to a flow whose first packet went from the LAN to the WAN of a file loaded before it |
| FirewallTraces.AdmittedInputIsLocal | native/internal/network/services.go:55 | over every such trace, a packet admitted on input that is not ICMP belongs or relates to a flow opened by the router, from loopback, or from the LAN to the management port of a file loaded before |
| FirewallTraces.RepliesPass | native/internal/network/services.go:55 | replies on an opened flow pass until the entry expires, whatever is loaded meanwhile |
| FirewallTraces.ForwardedIsTranslated | native/internal/network/services.go:114 | over every such trace, a forwarded packet belongs or relates to a flow that was opened before any load or left with the router's own address |
| FirewallTraces.LastFileAccountsIff | native/internal/network/services.go:52-60 | the last loaded file alone accounts for everything let through later, in every trace, if and only if every earlier file named the same interfaces and, unless the LAN is loopback, the same port |
| FirewallTraces.SwappedInterfacesStayOpen | native/internal/network/services.go:55 | after a second file with the interfaces swapped, a new packet from the new WAN to the new LAN is forwarded |
| Firewall.LiveIsUnion | native/internal/network/services.go:55 | after any loads the kernel admits exactly what some loaded file would |
| Firewall.ReloadIsIdempotent | native/internal/network/services.go:55 | after any history, loading a file that has been loaded before changes no verdict |
| Firewall.LiveMatchesLastIff | native/internal/network/services.go:52-60 | the kernel decides as the last file alone if and only if no earlier file admits more |
| FirewallNat.LiveTranslatesIff | native/internal/network/services.go:55 | after any loads, the source of a flow is rewritten if and only if its first packet leaves by the WAN interface of some loaded file |
| FirewallNat.NewForwardIsTranslated | native/internal/network/services.go:114 | whatever is loaded, a new flow that is let across leaves translated |
| FirewallNat.LiveTranslatesAsLastIff | native/internal/network/services.go:52-60 | the kernel translates as the last file alone if and only if every earlier file named the same WAN interface |
| FirewallText.RenderedDenotesProgram | native/internal/network/services.go:101-115 | an accepted input's text, read as a ruleset, is the analysed program |
| FirewallText.RenderedDecides | native/internal/network/services.go:101-115 | what is read from the text, chain types and priorities included, lets in and across exactly the packets the design names and rewrites exactly the flows that leave by the WAN interface |
| FirewallText.RenderedIff | native/internal/network/services.go:102-113 | each error is reported exactly when its check is the first to fail; a text is produced if and only if both names are valid and differ and the port is not 0 |
| Codec.RoundTrip | native/internal/config/config.go:17-87 | for every struct type and value, decoding the encoding into a zero value gives the normal form |
| Codec.NormalIffClean | native/internal/config/config.go:38-80 | the normal form is the value itself if and only if `omitempty` drops no empty slice that is not nil |
| Codec.DecodeTyped | native/internal/config/config.go:166-169 | decoding any document yields a value within the field types or an error |
| CodecDocuments.FieldByField | native/internal/config/config.go:166-169 | any document decodes into a struct if and only if for each field the values of the members that name it, in any case of letters, decode one over the other, and the field is what they make of it; unknown members do not count |
| ConfigSchema.ConfigWellFormed | native/internal/config/config.go:17-87 | the tags of the configuration satisfy what the round trip needs |
| ConfigSchema.DefaultIsSound | native/internal/config/config.go:105-149 | the default value is typed and survives a round trip |
| ConfigMeaning.DefaultIsServable | native/internal/config/config.go:105-149 | the DHCP and firewall sections of the default value, field by field of the same name, are accepted by both generators and name the interfaces of its own LAN and WAN sections |
| ConfigMeaning.ConfigDocument | native/internal/config/config.go:17-25 | the names in the document of every value, in order |
| ConfigMeaning.DhcpDocument | native/internal/config/config.go:55-64 | the same for the DHCP section |
| ConfigMeaning.FirewallDocument | native/internal/config/config.go:66-72 | the same for the firewall section |
| ConfigMeaning.WanDocument | native/internal/config/config.go:32-40 | the same for the WAN section, without the optional names whose value is empty |
| ConfigMeaning.WireGuardDocument | native/internal/config/config.go:74-81 | the same for the WireGuard section |
| ConfigStore.ReadsBack | native/internal/config/config.go:187-191 | reading a saved text gives the normal form, and the value exactly when clean |
| ConfigStore.RunAgrees | native/internal/config/config.go:151-237 | over any run with failures, once a save, an import or a load of an existing file has succeeded, memory and disk agree up to normal form for good |
| ConfigStore.RunAgreesExactly | native/internal/config/config.go:151-237 | over any run, memory is exactly what the file decodes to if and only if the last operation to succeed was such a load or the value is clean |
| ConfigStore.SavedAgrees | native/internal/config/config.go:217-222 | after a save memory equals the decoded file if and only if the value is clean |
| ConfigStore.RestartRestores | native/internal/config/config.go:166-172 | a new process loads the normal form of what was saved |
| ConfigStore.ImportOfExport | native/internal/config/config.go:225-237 | importing an export gives the normal form, and the same value if and only if it is clean |
| ConfigStore.EmptyPeersAreDropped | native/internal/config/config.go:80 | a concrete configuration that does not survive |
| ConfigStore.Store.constructor | native/internal/config/config.go:95-103 | a new store holds the default value and the default path unless given one |
| ConfigStore.Store.Load | native/internal/config/config.go:151-173 | memory becomes the decoded file; a missing file gives the default, saved or not; an error changes nothing |
| ConfigStore.Store.Save | native/internal/config/config.go:181-185 | success changes memory and file together, an error neither; other files stay, and no temporary name is left unless its removal failed |
| ConfigStore.Store.SaveAtomicLocked | native/internal/config/config.go:187-223 | a crash after any call finds a whole old or the whole new file, and after success either is still possible |
| ConfigStore.Store.Export | native/internal/config/config.go:225-229 | what is exported decodes to the normal form of the value in memory, and to the value itself if and only if it is clean |
| ConfigStore.Store.Import | native/internal/config/config.go:231-237 | a text that does not decode changes nothing; otherwise as saving its value |
| Protocol.NextKeeps | native/internal/manager/client.go:30-62 | every step of calls and server, with timeouts and with frames lost, cut short or begun in the middle, keeps the protocol's invariant |
| Protocol.DispatchReplies | native/internal/service/server.go:104-119 | the response to a request is the one response of version 1 with its id from which the outcome can be read by the protocol's codes: the JSON, the message of the failure, or that it could not be encoded; another version is answered as unsupported |
| Protocol.AnswersAreOwn | native/internal/manager/client.go:41-54 | in every run in which a read takes whole frames (or the end of one), a call that returns a result or a router error holds the server's answer to its own request, and so the JSON its request returned or the message of its failure, for up to 2^64 calls |
| Protocol.AnswersAreInOrder | native/internal/service/server.go:84-94 | in every run the responses tell the outcomes, in order, of a prefix of the requests written |
| Protocol.MismatchIffAbandoned | native/internal/manager/client.go:45-51 | in a sequential run without read-ahead a call mismatches if and only if an earlier one gave up waiting |
| Protocol.LockstepMatches | native/internal/manager/client.go:49-51 | however far decoders read ahead: without abandoned responses no sequential call fails on correlation |
| Protocol.IdsDiffer | native/internal/manager/client.go:41 | two calls have the same id if and only if their numbers agree modulo 2^64 |
| ProtocolWire.RunRefines | native/internal/manager/client.go:45-51 | over bytes read in pieces of any size: every run in which a call reads only while no other holds part of a response is a run of the machine of frames, call by call and answer by answer |
| ProtocolWire.ReadAnswersAreOwn | native/internal/manager/client.go:41-54 | in every such run an accepted response is the server's answer to the call's own request and tells what became of it |
| ProtocolWire.SpliceIsAccepted | native/internal/manager/client.go:46 | if two calls read by turns inside two responses, and the beginning of one with the end of the other decodes, the first call accepts what no server sent |
| ProtocolSplice.FormatIsSound | native/internal/manager/client.go:46 | a concrete format meets what is asked of the encoding |
| ProtocolSplice.SpliceHappens | native/internal/manager/client.go:45-51 | a whole run over that format in which a call accepts a spliced response |
| ManagerClient.Client.Call | native/internal/manager/client.go:30-62 | one call amid others, reading pieces of any size in turn with them: it sends the next id, and any accepted response is the answer to its own request and tells what became of it |
| Handler.FittingIsLargest | native/internal/service/server.go:84 | the requests that fit are exactly the prefixes whose bytes stay within the limit |
| Handler.FittingIsHalf | native/internal/service/server.go:84-90 | at two bytes each, no more than half the limit fit |
| Handler.HandleConnection | native/internal/service/server.go:84-94 | at most 2^19 requests are carried out, all that fit into 1048576 bytes unless sending fails, and each response tells what its request came to |
| Service.NextKeeps | native/internal/service/server.go:57-102 | every step of listeners, handlers and sweeps keeps the server's invariant |
| Service.ReturnedIsQuiet | native/internal/service/server.go:58-75 | when `Serve` has returned, every connection it accepted is closed, out of the map, and its handler gone |
| Service.ReturnWaits | native/internal/service/server.go:58-74 | `Serve` cannot return while a handler of its own runs |
| Service.SweptIsClosed | native/internal/service/server.go:60-64 | after a sweep every connection registered before it is closed or about to be closed by its handler |
| Service.OpenAfterSweepIsLate | native/internal/service/server.go:97-102 | a connection open in the map after a sweep registered after the sweep began |
| Service.LateRegistration | native/internal/service/server.go:74-79 | a run in which a connection registers too late, stays open and keeps `Serve` waiting |
| Service.LateStaysOpen | native/internal/service/server.go:74-83 | once every sweep is over and no listener starts, an open connection stays open through every run in which its own handler does not close it |
| Service.Server.CloseActiveConnections | native/internal/service/server.go:97-102 | the sweep amid other goroutines leaves none of the connections it found open |
| Traffic.RateIsExactIff | native/internal/network/traffic.go:49-54 | the rate is the bits over the time, rounded down, if and only if the counter grew by less than 2^61 |
| Traffic.StoppedClock | native/internal/network/traffic.go:40-43 | when the clock has not advanced, the growth counts as that of one second |
| Traffic.AppearancesAreAll | native/internal/network/traffic.go:46 | the list of samples in which an interface appears is complete and in order |
| Traffic.RateAtAppearance | native/internal/network/traffic.go:46-55 | there is one rate for each appearance, and it is the rate of that sample |
| Traffic.Telescopes | native/internal/network/traffic.go:40-55 | over any stretch of growing samples the rates account for the bytes counted, up to less than one bit a second |
| TrafficHistory.Append | native/internal/network/traffic.go:61-62 | append in place or into a new array of any size: the contents gain one value and nothing before the end is touched |
| TrafficHistory.Histories.Push | native/internal/network/traffic.go:57-84 | the history is the newest sixty of all rates (`NewestAt`), and no slice handed out earlier changes, for any growth of arrays |
| TrafficHistory.NewestAt | native/internal/network/traffic.go:64-69 | what is kept of the rates is counted from their end |
| TrafficSampler.Sampler.ReadTrafficStats | native/internal/network/traffic.go:30-94 | one item an interface with its counters and rates; each history holds the rates of the newest sixty samples in which the interface appears, or of all if fewer, oldest first and the current rate last; every slice ever returned still holds what it held |
| LogFile.CutIsThreshold | vite.config.ts:37-44 | the suffix kept is the longest that fits: a suffix fits if and only if it starts no earlier |
| LogFile.NewestThatFit | vite.config.ts:34-44 | the backward loop finds exactly that suffix |
| LogFile.TrimPays | vite.config.ts:16-17 | a trim rewrites at most one and a half times the bytes it drops |
| LogFile.Log.TrimLogFile | vite.config.ts:27-50 | a file beyond the limit keeps the longest suffix of whole lines that fits; any other is left alone |
| LogFile.Log.WriteToLogFile | vite.config.ts:52-69 | each line is a time stamp in brackets and its entry; after every call the file is a suffix of all lines ever written, each whole and terminated, at most 1 MiB; what a trim keeps fits into 60% of that and would not with one more line; over the run trims rewrote at most 1.5 times the bytes appended |
| Text.SplitUnlines | vite.config.ts:33 | splitting terminated lines gives back those lines and one empty text |
| Text.JoinLines | vite.config.ts:46 | joining them again restores the text |
| Outbox.RunConserves | client/public/__manus__/debug-collector.js:716-754 | over every interleaving pushed = delivered + in flight + buffered + pruned + lost as multisets, and every buffer is within its cap |
| Outbox.NoEventTwice | client/public/__manus__/debug-collector.js:744-753 | no event is delivered, in flight and buffered more often than it was pushed |
| Outbox.NothingPrunedEarly | client/public/__manus__/debug-collector.js:116-118 | in every run an event is pruned only if more than 500 console, 200 network or 500 interface events of its kind were pushed |
| Outbox.ReportLosesIff | client/public/__manus__/debug-collector.js:716-744 | a report loses events if and only if one cannot be serialised, and then all that were buffered |
| Outbox.PlainEventsAreKept | client/public/__manus__/debug-collector.js:716-754 | if only serialisable events are pushed, none is lost in any run |
| Outbox.RunInOrder | client/public/__manus__/debug-collector.js:744-753 | in every run that drains no events of a kind while others of it are under way, its buffer is at every moment the newest part of what was pushed, in order and without gaps |
| Outbox.ReportKeepsOrderIff | client/public/__manus__/debug-collector.js:716-754 | from any state in order, a report keeps a buffer in order against every sequence of failures if and only if it drains nothing of that kind or nothing of that kind is under way |
| Outbox.OverlapReorders | client/public/__manus__/debug-collector.js:744-748 | the shortest such run: two events, two reports, failures oldest first |
| Outbox.BigIntIsLost | client/public/__manus__/debug-collector.js:743 | one value that cannot be serialised takes all buffered events with it |
| Outbox.Collector.PruneBuffer | client/public/__manus__/debug-collector.js:116-118 | what is kept is the end of the buffer, as long as the limit allows |
| Outbox.Collector.Log | client/public/__manus__/debug-collector.js:240-250 | the buffer of the kind becomes the end of itself and the new event, up to 500, 200 or 500; the others stay; every event is accounted for |
| Outbox.Collector.ReportLogs | client/public/__manus__/debug-collector.js:716-744 | all three buffers are drained into one report under way, or lost if an event cannot be serialised; nothing is sent if there is nothing |
| Outbox.Collector.Reject | client/public/__manus__/debug-collector.js:744-753 | each buffer becomes the end of the failed batch and the newer events, up to its limit |
| Sanitize.OutputIsTidy | client/public/__manus__/debug-collector.js:64-96 | for every object graph the result is bounded in depth, strings and arrays, and censored under every sensitive key |
| Sanitize.SensitiveIff | client/public/__manus__/debug-collector.js:30-38 | a key is sensitive if and only if one of the seven words occurs in its lower-case form |
| Sanitize.AnyCaseIsSensitive | client/public/__manus__/debug-collector.js:84-87 | so it is in whatever case a word is written and whatever surrounds it |
| Sanitize.OutputShowsInput | client/public/__manus__/debug-collector.js:64-96 | down to the depth limit the result shows the input: the beginning of a text, the first hundred items in place, every ordinary property in order |
| Sanitize.FixedIffTidy | client/public/__manus__/debug-collector.js:64-96 | sanitising changes nothing if and only if the value is already so |
| Sanitize.Idempotent | client/public/__manus__/debug-collector.js:64-96 | sanitising a result again, at the same depth and however stored, gives the same result |
| Sanitize.SecretsDoNotShow | client/public/__manus__/debug-collector.js:84-92 | the result does not depend on values under sensitive keys nor on anything reachable only through them |
| Windows.RunRefines | client/src/pages/Home.tsx:134-171 | in every reachable state ids, kinds and z-indexes are distinct, and sorting by z-index gives the abstract move-to-front list |
| Windows.StepRefines | client/src/pages/Home.tsx:134-167 | each handler refines its step on the list |
| Windows.OrderIsUnique | client/src/pages/Home.tsx:137-138 | the list is determined by the z-indexes |
| Windows.OthersKeepOrder | client/src/pages/Home.tsx:134-167 | every handler keeps the relative order of all other windows |
| Windows.OthersStay | client/src/pages/Home.tsx:134-167 | every handler leaves all other windows as they are |
| Windows.FieldsAfter | client/src/pages/Home.tsx:134-167 | which event may change which field of a window, and to what: only moving moves, only maximising toggles that, focusing, opening and maximising clear the minimised flag |
| WindowHistory.LooksAreHistory | client/src/pages/Home.tsx:134-167 | after any run every window has the position, size and flags that the events about it say since it was opened, or since the start |
| WindowHistory.OpenedWindow | client/src/pages/Home.tsx:142-150 | a kind that is not shown gets a window in its place, of its size, neither minimised nor maximised, above all others and active |
| Windows.OpenedIsOnTop | client/src/pages/Home.tsx:134-150 | opening, and focusing an existing window, makes it active and puts it on top |
| Windows.CloseDanglesIff | client/src/pages/Home.tsx:152-154 | the active id keeps a window if and only if it had one and another was closed |
| Windows.ActiveMayDangle | client/src/pages/Home.tsx:152-163 | runs in which the active id has no window, or is not on top |
| Windows.ActiveAfterIff | client/src/pages/Home.tsx:134-171 | for every event from every state in order: exactly when the active id has a window afterwards, and exactly when it is on top |
| Windows.NextActiveIff | client/src/pages/Home.tsx:134-171 | the same for one more event after any run |
| Windows.ActiveIff | client/src/pages/Home.tsx:134-171 | over whole runs: since the last event that made a window active, it has a window if and only if it had one then and was not closed, and is on top if and only if besides all windows above it were closed |
| Windows.OpenKeepsInvIff | client/src/pages/Home.tsx:142-150 | opening from an outdated rendering keeps the invariant if and only if the kind is shown, or neither kind nor z-index is taken |
| Windows.OpenThenClose | client/src/pages/Home.tsx:142-154 | closing a window just opened restores the list |
| Recogniser.Ipv4Pattern | client/src/lib/netrouter-helpers.ts:8 | the pattern matches exactly four dot-separated numerals of one or two digits or from 100 to 255 |
| Recogniser.MacPattern | client/src/lib/netrouter-helpers.ts:7 | the pattern matches exactly six colon-separated pairs of hexadecimal digits |
| Recogniser.PrintedAddressAccepted | client/src/lib/netrouter-helpers.ts:8-9 | every printed 32-bit address is accepted |
| Recogniser.PrintedMacAccepted | client/src/lib/netrouter-helpers.ts:7-9 | every printed 48-bit address is accepted |
| Recogniser.LanguagesDisjoint | client/src/lib/netrouter-helpers.ts:7-9 | no text matches both patterns |
| Recogniser.PaddedAddressConnects | client/src/lib/netrouter-helpers.ts:5-16 | a printed address with white space around it and a user name passes the check |
| Recogniser.ConnectionErrors | client/src/lib/netrouter-helpers.ts:12-16 | exactly when each error of the connection form is shown |
| Recogniser.ParserIsStricter | client/src/lib/netrouter-helpers.ts:8 | for every text: the daemon's address parser accepts it if and only if the pattern matches and no numeral has a leading zero |
| Recogniser.ValidIffPadded | client/src/lib/netrouter-helpers.ts:5-9 | a connection target is valid if and only if it is an address text within white space |
| NamePatterns.NamePattern | native/internal/network/manager.go:20 | the daemon's pattern matches exactly the names the generators accept |

## Left out

- Concurrency of the methods in `Manager`: they run one request at a time, over the same file system; `StagedConfig` has all interleavings, and `Daemon` runs the same operation as steps of that machine with other requests in between.
- Manager.StageWrite: file modes are not modelled; `atomicWrite` is its composition with `Manager.CommitStaged`.
- StagedConfig.OnlyValidatedBecomesActive: assumes that `CreateTemp` returns no name that an unfinished request still claims; the code relies on random names for that, and `StagedNames` shows what happens otherwise.
- StagedConfig.SuccessIsDurable: the directory is taken to exist durably; one that `MkdirAll` (services.go:127) has just created hangs on its parent, which nothing synchronises, so a crash after the first apply into it could lose the directory.
- FirewallTraces.ForwardedComesFromLan: assumes that a flow is routed the same way throughout and relates only to flows routed likewise; other tables are not modelled. Which flows are rewritten is; the addresses and ports they are given are not.
- ConfigStore.Store.SaveAtomicLocked: values are copied, so a caller that writes through a slice shared with the store is not captured; strings are valid Unicode; JSON text is any format in which printed documents can be read back.
- The exported configuration on the wire: `dispatch` encodes the text once more as base64; the round trip is stated at the store.
- ConfigMeaning.DefaultIsServable: the daemon does not apply the stored configuration by itself; the sections are read as requests field by field.
- Codec.RoundTrip: names of fields are lower-case ASCII; numbers are integers or an unspecified fraction.
- Protocol.AnswersAreOwn: stated where a read takes whole frames or the end of one; reading in pieces is in `ProtocolWire`. No result of the daemon has an "id" member. Decoding a result into the caller's variable is not modelled.
- ProtocolWire.ReadAnswersAreOwn: assumes that calls do not alternate inside a response, and of the encoding (`Sound`) that no proper end of a response decodes to a response with a number for its id; `SpliceIsAccepted` shows why the first is needed.
- ManagerClient.Client.Call: other calls read only while none holds part of a response, as in `ProtocolWire`; deadlines are a free choice of when to give up; a failed write leaves the TLS stream unusable.
- The effects of each request method: the outcome of `call` is arbitrary.
- TrafficSampler.Sampler.ReadTrafficStats: the two history maps are one map keyed by direction and name; arithmetic on rates is over real numbers, without the rounding of float64; reading the interface table is an arbitrary map.
- LogFile.Log.TrimLogFile: errors that the trim swallows are not modelled; nor is a file that the program did not write.
- Outbox.PlainEventsAreKept: a response with an error status counts as delivered, as in the code; the report on page unload copies without draining and is not modelled.
- Sanitize.OutputIsTidy: strings are sequences of characters, not UTF-16 units; getters and array holes are not modelled; the number of properties of an object is not bounded by the code.
- Windows.RunRefines: every event is handled on a fresh rendering; rendering itself is not modelled.
- Sockets, TLS, discovery, process execution, the internals of dnsmasq and nftables: free choices of the environment.
- PPPoE, WireGuard, link, address, route, identity and reboot requests, leases, logs and the Windows clients: little state, easy members.
