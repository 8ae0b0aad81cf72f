# Verification of the VPN client and its daemon

A Dafny 4.11 model of the stateful parts of the Amnezia VPN client and of the
privileged WireGuard daemon it talks to, with proofs of what they keep over
whole runs. `dafny verify dfyconfig.toml` checks the project.

What is modelled, and what is proved about it:

- **The WireGuard daemon** (`Daemon`, `DaemonService`, `DaemonExclusions`,
  `DaemonSwitch`, `DaemonRestart`, `DaemonRoutes`, `DaemonPolling`). Activation,
  deactivation, the in-place server switch, reference-counted exclusion routes
  and handshake polling run over an operating system whose every call may succeed, or fail
  with or without an effect. A switch ends where a restart ends, except for
  the interface parameters that only a restart sets; after runs in which route
  additions and the deletion of peers and of the interface succeed, counts are
  not below the live requests and a switch lets go of nothing that the two
  servers share, whatever fails during it; polling continues while
  a handshake is awaited; each recorded connection is announced at most once,
  and only for a reported handshake. The theorems about runs hold of the
  `Service` object that handles the events.
- **The client's daemon connection** (`Framing`, `Controller`). Commands do not
  depend on how the byte stream is cut into reads; initialisation is bounded
  and reported once; log callbacks are conserved. The theorems about runs hold
  of the `LocalSocketController` object.
- **Split tunnelling** (`SplitTunnel`). The user's mode and sites keep their
  meaning through four stages, under longest-prefix routing.
- **Pings** (`Checksum`, `PingRing`, `DnsPing`). The Internet checksum (sections
  1 and 2 of RFC 1071), the DNS header (section 4.1.1 of RFC 1035), and the
  ring of 32 slots under a wrapping 16-bit number.
- **Settings** (`SecureSettings`, `Containers`, `ServerSettings`, `ServerNames`).
  The cached, partly encrypted store is a plain map, also across restarts;
  nested updates have exact frames; server names are minimal.
- **Addresses** (`AddressPool`, `AddressCuts`, `IpRanges`). Client addresses stay
  distinct over every interleaving of creations and removals, text included;
  subtracting address blocks covers exactly the difference. Nothing else in the
  repository calls that subtraction (`excludeAddresses`); it is modelled as the
  library function it is.

`Net`, `Decimal` and `TextTools` are shared helpers.

Places where the code does not do what one would expect, each with the exact
condition for the expected behaviour and, where that names no input, a run or an
input that shows the difference:

- A switch keeps the interface's old MTU and junk-packet parameters, because
  the check that allows it does not compare them
  (`DaemonRestart.SwitchKeepsOldLink`). It equals a restart on the interface
  exactly when they agree (`DaemonRestart.SwitchRefinesRestart`).
- Excluded addresses are added under a key parsed as a prefix and removed under
  a key parsed as a bare address, so a subnet outlives the server that asked for
  it (`DaemonRestart.SubnetOutlivesSwitch`). After a switch the counts are right
  exactly when the old list holds plain addresses only
  (`DaemonSwitch.SwitchCountsExactlyWhenPlain`). Too low they are not, whatever
  the lists hold, while route additions and deletions of peers and of the
  interface succeed (`DaemonSwitch.RunCovering`).
- An exclusion whose addition fails is not noticed by the activation, and a
  later switch can drop it although both servers ask for it
  (`DaemonSwitch.FailedAdditionLosesShared`). A switch that reaches the removals
  keeps an exclusion exactly when its count and the new requests together exceed
  the old list's removals (`DaemonSwitch.SwitchKeepsExactly`,
  `DaemonSwitch.SwitchKeepsUncounted`).
- A switch deletes the routes its own hop gives up, also one that another live
  hop lists (`DaemonRoutes.SwitchTakesSharedRoute`). The routes of all live hops
  stay installed exactly when there is no such route
  (`DaemonRoutes.StepRoutesExactly`).
- A switch whose resolver or hook step fails after the move leaves a
  connection that nothing polls (`DaemonPolling.LateFailureStopsPolling`),
  exactly when the timer was not running (`DaemonPolling.StepPolling`).
- A socket error during initialisation that leaves the socket usable, with
  retries left, lets a reply overtake the retry timer: initialisation starts
  over and is reported twice (`Controller.OvertakenFromStart`). A step leaves
  every calm future with at most one report exactly when it is no such error
  (`Controller.StepKeepsPromiseExactly`).
- Removing a settings group leaves cached members behind, which are read until
  the next restart (`SecureSettings.RemovedGroupIsRead`). Cache and file agree
  afterwards exactly when no member was cached (`SecureSettings.RemoveDrops`).
- A value stored in plain that decodes to something else is read as that after
  the next restart, for instance one that starts with the encryption mark when
  there is no key (`SecureSettings.MagicPlainValueIsLost`). Cache and file agree
  exactly when it decodes to itself (`SecureSettings.PlainValueReadsExactly`).
- A reply numbered 0 before the first ping is taken for an answer
  (`PingRing.SlotMatches`).
- Tool output cut inside a line can be misread. The addresses are right exactly
  for a cut at an end of the line, after the label or before the mask; the next
  number is right in further cases (`AddressCuts.CutListing`).
- What the last connection left in the client's buffer precedes the first
  message of the next one, which arrives as written exactly when that rest is
  blank (`Framing.ReconnectExactly`).
- Cutting a block out of another can go on for ever, in a release build
  (`IpRanges.StuckSource`, `IpRanges.StuckExclude`). It ends with exactly the difference if and only if the
  bits after the prefix are the same number in both (`IpRanges.CutExactly`).

Inputs that the model takes as parameters: the outcome of every system call and
the iteration order of the exclusion hash (`Daemon.Env`), the time of a ping,
the cipher, its key and the value serialisation (`SecureSettings.Platform`),
the JSON conversion of values (`SecureSettings.Codec`), and the library's
parser of dotted quads (`SplitTunnel.Parser`). Debug assertions are modelled as
a flag that records whether one would have failed; the code goes on as a
release build does.

## Model

| member | source | states |
|---|---|---|
| `Daemon.RestartIsFresh` | client/daemon/daemon.cpp:100-111 | when switching is not supported, activation is a tear-down followed by a fresh start; it recurses at most once |
| `Daemon.Deactivate` | client/daemon/daemon.cpp:410-459 | a successful tear-down leaves no connection and no count |
| `DaemonService.Backend.Do` | client/daemon/wireguardutils.h:37-50 | a call reports its outcome, takes effect or not, and is recorded |
| `DaemonService.Service.constructor` | client/daemon/daemon.cpp:29-39 | a new daemon has no connections, no counts and a stopped timer |
| `DaemonService.Service.AddExclusionRoute` | client/daemon/daemon.cpp:212-222 | counts up, or installs and counts one; true exactly when counted afterwards |
| `DaemonService.Service.DelExclusionRoute` | client/daemon/daemon.cpp:224-232 | counts down, or removes entry and route; records a failed assertion |
| `DaemonService.Service.MaybeUpdateResolvers` | client/daemon/daemon.cpp:167-189 | sets the resolvers for single and exit hops, if the platform has DNS support |
| `DaemonService.Service.DeactivateAll` | client/daemon/daemon.cpp:410-459 | the tear-down, step by step, has the effect of `Deactivate` |
| `DaemonService.Service.SwitchTo` | client/daemon/daemon.cpp:481-526 | the in-place switch, step by step, has the effect of `SwitchServer` |
| `DaemonService.Service.ActivateBySwitching` | client/daemon/daemon.cpp:73-98 | switch, restore and set resolvers, run the hook, record and arm the timer |
| `DaemonService.Service.ActivateFresh` | client/daemon/daemon.cpp:113-164 | fresh activation up to the first step that fails |
| `DaemonService.Service.BringInterfaceUp` | client/daemon/daemon.cpp:134-156 | resolvers, addresses, MTU, routes and hook in order, up to the first failure |
| `DaemonService.Service.UpdateRoutePrefixes` | client/daemon/daemon.cpp:147-154 | installs routes up to the first failure |
| `DaemonService.Service.DeleteRoutePrefixes` | client/daemon/daemon.cpp:511-515 | removes the old routes that the new list does not keep |
| `DaemonService.Service.ClearExclusionRoutes` | client/daemon/daemon.cpp:445-450 | deletes every counted route in hash order and clears the counts |
| `DaemonService.Service.ActivateConfig` | client/daemon/daemon.cpp:56-165 | the whole of activation, its recursion and its failure signal |
| `DaemonService.Service.PollConnection` | client/daemon/daemon.cpp:566-587 | the inner loop over reported peers dates and announces one connection |
| `DaemonService.Service.Handle` | client/daemon/daemon.cpp:56-165 | whatever event is handled, the object is where the run of all its events leads, so it has what `RunBacked`, `RunCounted`, `RunCovering`, `RunJustified`, `RunAttested`, `RunPolling`, `RunAtRest` and `RunRoutesLive` promise |
| `DaemonService.Service.PollHandshakes` | client/daemon/daemon.cpp:559-593 | one poll over all connections; the timer is armed exactly when some handshake is pending |
| `DaemonExclusions.RunBacked` | client/daemon/daemon.cpp:212-232 | under arbitrary failures, after every run every counted prefix is installed with a count of at least 1; the two sets are equal when deletions succeed and failed additions leave nothing |
| `DaemonExclusions.DelAllCounts` | client/daemon/daemon.cpp:507-510 | removing what was added lowers each count by its occurrences and fails no assertion |
| `DaemonExclusions.SwitchCounts` | client/daemon/daemon.cpp:481-526 | what a switch, successful or not, does to counts and connections |
| `DaemonExclusions.RunCounted` | client/daemon/daemon.cpp:490-510 | over every run with plain exclusions and dependable calls, each count is at least the live requests, equal while no activation has failed, and no assertion fails |
| `DaemonSwitch.RunCovering` | client/daemon/daemon.cpp:490-510 | the same lower bound for lists of any parsed entries, subnets and unparsable texts included |
| `DaemonSwitch.SwitchHolds` | client/daemon/daemon.cpp:490-515 | from any state whose counted exclusions are installed and whatever fails, every kernel state passed through during a switch has the counted exclusions that the counts carry through and the installed routes that the new list has |
| `DaemonSwitch.SwitchKeepsExactly` | client/daemon/daemon.cpp:490-510 | a counted exclusion is in every kernel state of a switch that reaches the removals, and in the last, if and only if its count plus the new list's requests exceeds the old list's removals |
| `DaemonSwitch.SwitchKeepsUncounted` | client/daemon/daemon.cpp:490-510 | the same for an exclusion not counted before, from the removals on, when its addition succeeds during the switch |
| `DaemonSwitch.FailedAdditionLosesShared` | client/daemon/daemon.cpp:124-126 | a run of two successful activations, with one failed addition, after which an exclusion that both servers ask for is neither counted nor installed |
| `DaemonSwitch.SwitchKeepsShared` | client/daemon/daemon.cpp:490-515 | after every run in which additions, peer and interface deletion succeed, and whatever fails from then on, every kernel state of a switch has each exclusion the two servers share, and each shared route that was installed |
| `DaemonSwitch.SwitchCountsExactlyWhenPlain` | client/daemon/daemon.cpp:490-510 | after a switch the counts match the live requests, and the assertion holds, if and only if the old list is plain addresses only |
| `DaemonRestart.FreshSettles` | client/daemon/daemon.cpp:113-164 | a fresh start from nothing ends in the state its configuration determines |
| `DaemonRestart.SettledToIdle` | client/daemon/daemon.cpp:410-459 | a tear-down from such a state leaves nothing installed |
| `DaemonRestart.SwitchSettles` | client/daemon/daemon.cpp:73-98 | a switch ends in the state the new configuration determines, over the old interface |
| `DaemonRestart.SwitchRefinesRestart` | client/daemon/daemon.cpp:467-479 | switching equals tear-down and fresh start on connections, counts, peers, routes, exclusions, resolvers, timer and signals, and on the interface if and only if MTU and junk parameters agree |
| `DaemonRestart.SwitchKeepsOldLink` | client/daemon/daemon.cpp:467-479 | after two activations that differ in MTU or junk parameters the interface has the first ones; with a deactivation in between it has the second |
| `DaemonRestart.SubnetOutlivesSwitch` | client/daemon/daemon.cpp:507-510 | a run after which no server excludes the subnet, yet its route and count remain and the assertion has failed |
| `DaemonRestart.RunAtRest` | client/daemon/daemon.cpp:56-165 | while calls succeed, every run with plain exclusions, over any hops, has settled whenever one hop is in use, so the refinement applies there; a deactivation of any number of hops leaves nothing |
| `DaemonRestart.SettledSwitchKeepsShared` | client/daemon/daemon.cpp:490-515 | from every settled state the shared routes survive a switch under any later failures |
| `DaemonRoutes.StepRoutesExactly` | client/daemon/daemon.cpp:511-515 | while calls succeed, a step keeps the routes of all live hops installed if and only if it is no switch that gives up a route another live hop lists |
| `DaemonRoutes.RunRoutesLive` | client/daemon/daemon.cpp:56-165 | over every run without such switches the routes of all live hops are installed |
| `DaemonRoutes.SwitchTakesSharedRoute` | client/daemon/daemon.cpp:511-515 | a run of two hops over one route after which a live hop has lost a route it lists |
| `DaemonPolling.ActivateReports` | client/daemon/daemon.cpp:71-111 | activation returns true if and only if it emits no failure; a failure is emitted once, twice when the fresh start after a tear-down fails |
| `DaemonPolling.StepPolling` | client/daemon/daemon.cpp:73-98 | a step keeps the timer running while a handshake is awaited, if and only if it is not a late switch failure with the timer stopped |
| `DaemonPolling.LateFailureStopsPolling` | client/daemon/daemon.cpp:73-98 | a run of two activations and one poll after which a handshake is awaited and the timer is stopped |
| `DaemonPolling.RunPolling` | client/daemon/daemon.cpp:589-592 | over every run without late switch failures the timer runs while a handshake is awaited |
| `DaemonPolling.AbsorbSummary` | client/daemon/daemon.cpp:573-582 | one poll dates a connection with its last completed handshake and announces each of them, under its own key |
| `DaemonPolling.RunAttested` | client/daemon/daemon.cpp:559-593 | over every run with distinct reported keys, each recorded connection is announced at most once and only under its own key |
| `DaemonPolling.RunJustified` | client/daemon/daemon.cpp:573-582 | over every run, each announcement is for a key of which some poll of the run reported a non-zero handshake |
| `DaemonPolling.RepeatedKeyAnnouncesTwice` | client/daemon/daemon.cpp:573-582 | a key reported twice announces the connection twice |
| `Framing.Client.ReadData` | client/mozilla/localsocketcontroller.cpp:326-352 | dispatches exactly the non-empty trimmed lines of buffer and input, keeps the unterminated tail |
| `Framing.Daemon.ReadData` | client/daemon/daemonlocalserverconnection.cpp:48-76 | the same for all reads the socket yields; ends by unread bytes, then buffer length |
| `TextTools.TrimExact` | client/mozilla/localsocketcontroller.cpp:343-348 | trimming removes blanks at both ends and leaves none there |
| `Framing.ChunkingIrrelevant` | client/mozilla/localsocketcontroller.cpp:326-352 | for every split of a stream into reads, commands and tail are those of the whole stream |
| `Framing.MessagesArrive` | client/mozilla/localsocketcontroller.cpp:474-479 | each newline-free message written arrives as exactly one command, in order, whatever the cuts |
| `Framing.ReconnectExactly` | client/mozilla/localsocketcontroller.cpp:326-352 | over a buffer left by an earlier connection only the first message can suffer, and all arrive as written if and only if the rest is blank |
| `Controller.RunKeepsPromise` | client/mozilla/localsocketcontroller.cpp:53-105 | over every possible run without an overtaking error: at most ten timed reconnects, at most one initialisation result, nothing delivered before ready |
| `Controller.StepKeepsPromiseExactly` | client/mozilla/localsocketcontroller.cpp:53-68 | after a possible step from a sound state every possible calm future keeps that promise, if and only if the step is not an error during initialisation that leaves the socket usable with retries left |
| `Controller.OvertakingReportsTwice` | client/mozilla/localsocketcontroller.cpp:57-61 | after such an error from any sound state a possible continuation reports initialisation twice |
| `Controller.OvertakenFromStart` | client/mozilla/localsocketcontroller.cpp:57-61 | a possible run from the start that reports initialisation twice |
| `Controller.RunSound` | client/mozilla/localsocketcontroller.cpp:371-402 | soundness, which implies the promise, and being ready last over every possible calm run from any sound state |
| `Controller.ReadyForever` | client/mozilla/localsocketcontroller.cpp:70-77 | the controller never returns to initialising once ready |
| `Controller.LocalSocketController.Handle` | client/mozilla/localsocketcontroller.cpp:53-111 | whatever possible event is handled, the object is where the run of all its events leads: callbacks are conserved, and the promise is kept while no error has overtaken |
| `Controller.RunConserved` | client/mozilla/localsocketcontroller.cpp:287-324 | in every run log callbacks are called at most once, in request order; calls are the requests less the one outstanding |
| `Controller.LogTextSurvives` | client/daemon/daemonlocalserverconnection.cpp:123-130 | log text survives the bar encoding if and only if it has no bar |
| `Controller.LocalSocketController.OnError` | client/mozilla/localsocketcontroller.cpp:53-68 | the error handler: retry, or report failure and disconnect |
| `Controller.LocalSocketController.Start` | client/mozilla/localsocketcontroller.cpp:79-89 | the first connection attempt |
| `Controller.LocalSocketController.OnTimer` | client/mozilla/localsocketcontroller.cpp:91-105 | a timed reconnect |
| `Controller.LocalSocketController.OnConnected` | client/mozilla/localsocketcontroller.cpp:107-111 | asks for the status once connected |
| `Controller.LocalSocketController.OnData` | client/mozilla/localsocketcontroller.cpp:326-352 | handles the commands of a read in order |
| `Controller.LocalSocketController.RequestDeactivation` | client/mozilla/localsocketcontroller.cpp:260-273 | writes the request only when ready, and always signals the disconnect |
| `Controller.LocalSocketController.OnCommand` | client/mozilla/localsocketcontroller.cpp:354-472 | the effect of one command in every phase |
| `Controller.LocalSocketController.GetBackendLogs` | client/mozilla/localsocketcontroller.cpp:287-307 | flushes the outstanding callback, then answers at once or waits |
| `Controller.LocalSocketController.CleanupBackendLogs` | client/mozilla/localsocketcontroller.cpp:309-324 | flushes the outstanding callback and asks for the clean-up when ready |
| `SplitTunnel.GetVpnIps` | client/settings.cpp:304-317 | the result is exactly the texts the stored entries stand for, without duplicates |
| `SplitTunnel.AppendSplitTunneling` | client/vpnconnection.cpp:309-329 | the mode, and exactly the stored sites, with the DNS servers in forward mode |
| `SplitTunnel.BuildRequest` | client/mozilla/localsocketcontroller.cpp:149-221 | the ranges by explicit list or mode, and the exclusions |
| `SplitTunnel.ParseAllowed` | client/daemon/daemon.cpp:316-368 | the parsed ranges, as a multiset, longest prefix first |
| `SplitTunnel.ParseExcluded` | client/daemon/daemon.cpp:123-126 | each excluded text parsed as a prefix, in order |
| `SplitTunnel.Translate` | client/vpnconnection.cpp:309-329 | end to end: by longest-prefix routing an IPv4 address is tunnelled if and only if mode and sites say so and it is not the server |
| `Checksum.InetChecksum` | client/mozilla/pingsender.cpp:13-48 | within 65536 bytes the accumulator stays a 32-bit integer and the answer is `Answer`, the complement of the ones' complement sum that the results below are about |
| `Checksum.TwoFoldsSuffice` | client/mozilla/pingsender.cpp:43-46 | two folds reduce every 32-bit accumulator to its ones' complement value |
| `Checksum.AccumulatorBound` | client/mozilla/pingsender.cpp:31-41 | every buffer of a length is safe from overflow in both byte orders if and only if the length is at most 65536 |
| `Checksum.ByteOrderIndependent` | client/mozilla/pingsender.cpp:31-47 | the little-endian result is the byte swap of the big-endian one, so the stored bytes agree, odd lengths included |
| `Checksum.WordOrderIndependent` | client/mozilla/pingsender.cpp:31-34 | permuting the 16-bit words leaves the checksum unchanged |
| `Checksum.SelfVerifying` | client/mozilla/pingsender.cpp:13-48 | storing the result in a zeroed aligned field makes the checksum of the buffer 0 |
| `PingRing.DenotesUnique` | client/mozilla/pinghelper.cpp:98-100 | a 16-bit number denotes at most one of the last 32 pings |
| `PingRing.SlotMatches` | client/mozilla/pinghelper.cpp:98-100 | the selected slot carries the number if and only if it denotes a ping of the window or is a stray 0 before the first ping |
| `PingRing.SlotsAfterSend` | client/mozilla/pinghelper.cpp:89-95 | one more ping changes its own slot and no other |
| `PingRing.PingHelper.Start` | client/mozilla/pinghelper.cpp:59-65 | empties the ring and the history |
| `PingRing.PingHelper.NextPing` | client/mozilla/pinghelper.cpp:81-96 | records the ping in its slot; the ring still agrees with the history, also after the number wraps |
| `PingRing.PingHelper.PingReceived` | client/mozilla/pinghelper.cpp:98-111 | a latency is recorded if and only if the number denotes one of the last 32 pings (or is a stray 0), for that ping alone |
| `DnsPing.Query` | client/mozilla/dnspingsender.cpp:100-115 | the datagram decodes to a standard query numbered as asked, followed by the root question, and is itself no reply |
| `DnsPing.HeaderRoundTrip` | client/mozilla/dnspingsender.cpp:102-111 | decoding an encoded header gives the header, whatever follows it |
| `DnsPing.CheckReply` | client/mozilla/dnspingsender.cpp:135-156 | the checks accept exactly responses to standard queries and yield their number |
| `DnsPing.ReadData` | client/mozilla/dnspingsender.cpp:128-158 | the numbers of the valid replies in order, up to the first datagram that cannot be received |
| `DnsPing.AnswerIsMatched` | client/mozilla/dnspingsender.cpp:135-156 | an answer to a ping of the window is taken for that ping and no other |
| `SecureSettings.GetReads` | client/secure_qsettings.cpp:36-78 | a read returns the plain map's value or the default and keeps cache and store in step |
| `SecureSettings.SetWrites` | client/secure_qsettings.cpp:80-105 | a write updates the plain map, or is refused for a missing key and changes nothing |
| `SecureSettings.PlainValueReadsExactly` | client/secure_qsettings.cpp:36-105 | a value written in plain reads back until a restart and then as what it decodes to (the migration mark as set); cache and store agree if and only if it decodes to itself |
| `SecureSettings.MagicPlainValueIsLost` | client/secure_qsettings.cpp:52-57 | an input that shows it: without a key, a plain value that looks encrypted decodes to nothing |
| `SecureSettings.RemoveDrops` | client/secure_qsettings.cpp:107-115 | removal drops key and group; the cache stays in step if and only if no member of the group is cached |
| `SecureSettings.RemovedMemberIsRead` | client/secure_qsettings.cpp:36-42 | a cached member of a removed group is still read, though the plain map no longer has it |
| `SecureSettings.RemovedGroupIsRead` | client/secure_qsettings.cpp:107-115 | a run that writes a key, removes its group and reads the key back, until the next restart |
| `SecureSettings.ReopenReads` | client/secure_qsettings.cpp:18-34 | the migration changes no reading but its own mark and leaves the encrypted keys sealed |
| `SecureSettings.StoreIsPlainMap` | client/secure_qsettings.cpp:18-115 | over every sequence of reads, writes, leaf removals, clearings and restarts the store returns what a plain map returns |
| `SecureSettings.BackupThenRestore` | client/secure_qsettings.cpp:122-172 | backed-up keys read as saved, the installation identity and all other keys stay, restoring is idempotent |
| `SecureSettings.SecureQSettings.constructor` | client/secure_qsettings.cpp:18-34 | the migration loop has the effect of `Reopen` |
| `SecureSettings.SecureQSettings.Value` | client/secure_qsettings.cpp:36-78 | the read through the cache has the effect of `Get` |
| `SecureSettings.SecureQSettings.SetValue` | client/secure_qsettings.cpp:80-105 | the write has the effect of `Set` |
| `SecureSettings.SecureQSettings.RemoveKey` | client/secure_qsettings.cpp:107-115 | the removal has the effect of `Remove` |
| `SecureSettings.SecureQSettings.ClearSettings` | client/secure_qsettings.cpp:280-286 | store and cache are empty |
| `SecureSettings.SecureQSettings.BackupAppConfig` | client/secure_qsettings.cpp:122-154 | the backup holds exactly the keys to back up with their readings |
| `SecureSettings.SecureQSettings.RestoreAppConfig` | client/secure_qsettings.cpp:156-172 | false and no change exactly for an empty backup; otherwise the plain map with the backup written over it |
| `Containers.ContainerFromString` | client/containers/containers_defs.cpp:14-23 | the first container with the name, or none |
| `Containers.NameRoundTrip` | client/containers/containers_defs.cpp:14-36 | every container is found again under its name |
| `Containers.NoWildcard` | client/containers/containers_defs.cpp:51-76 | no container lists the wildcard protocol, so clearing recurses one level |
| `Containers.ProtoNamesDiffer` | client/protocols/protocols_defs.cpp:26-34 | no two protocols share a field name |
| `ServerSettings.ArrayRoundTrip` | client/settings.cpp:113-134 | writing containers as an array and reading them back gives the same map |
| `ServerSettings.SetConfigFrame` | client/settings.cpp:143-153 | setting a configuration updates that container alone; out of range nothing changes |
| `ServerSettings.SetThenRead` | client/settings.cpp:136-153 | the configuration reads back with its name set, every other container and server as before |
| `ServerSettings.ClearReads` | client/settings.cpp:181-194 | clearing with the wildcard removes the last configuration from exactly the container's protocols; all else reads as before |
| `ServerSettings.Settings.ReadContainers` | client/settings.cpp:113-123 | the loop builds the map, a later object for a container winning |
| `ServerSettings.Settings.SetContainers` | client/settings.cpp:125-134 | the loop writes the map as an array in container order |
| `ServerSettings.Settings.EditServer` | client/settings.cpp:81-90 | replaces an in-range server, otherwise fails with no change |
| `ServerSettings.Settings.ContainerConfig` | client/settings.cpp:136-141 | the container's object, or an empty one |
| `ServerSettings.Settings.ProtocolConfig` | client/settings.cpp:167-171 | the protocol's object, or an empty one |
| `ServerSettings.Settings.SetContainerConfig` | client/settings.cpp:143-153 | the update has the effect of `WithConfig` |
| `ServerSettings.Settings.SetProtocolConfig` | client/settings.cpp:173-179 | the update has the effect of `WithProtocol` |
| `ServerSettings.Settings.ClearLastConnectionConfig` | client/settings.cpp:181-194 | the recursive clearing terminates with the effect of `Cleared` |
| `ServerNames.Pigeonhole` | client/settings.cpp:204-221 | if the first n names are taken there are at least n servers |
| `ServerNames.NextAvailableServerName` | client/settings.cpp:204-221 | ends within one round more than there are servers, with an unused name of the least positive number |
| `Decimal.PrintParses` | client/settings.cpp:213-220 | a printed number parses back |
| `AddressPool.NextAddress` | client/configurators/wireguard_configurator.cpp:79-122 | the address computed from the tool output, or the pool error |
| `AddressPool.ListingReadsBack` | client/configurators/wireguard_configurator.cpp:82-96 | however whole lines are grouped into output, a valid file reads back as exactly its addresses |
| `AddressCuts.PiecesExactly` | client/configurators/wireguard_configurator.cpp:84-96 | a cut line is listed as its address if and only if the cut is at an end of the line, after the label or before the mask; otherwise as two texts |
| `AddressCuts.NextNumberExactly` | client/configurators/wireguard_configurator.cpp:98-109 | the next number from a cut line is right if and only if the cut is before the last number (and, in an address without dots, not inside the label before its last blank), after leading zeros of the number, at its end or the end of the line, or inside the mask where what is left of that is the number itself |
| `AddressCuts.CutListing` | client/configurators/wireguard_configurator.cpp:79-109 | for one cut anywhere in the listing of a valid file: the addresses are right if and only if the cut is clean, the next number if and only if a line follows or the cut keeps the number |
| `AddressPool.ClientIpOctet` | client/configurators/wireguard_configurator.cpp:111-122 | the text of a new address parses back to its number |
| `AddressPool.CreationFailsExactly` | client/configurators/wireguard_configurator.cpp:98-117 | creation fails if and only if the last client has number 254 or the subnet text has no parts |
| `AddressPool.RunValid` | client/configurators/wireguard_configurator.cpp:79-146 | over every interleaving of creations and removals numbers strictly increase within 2 to 254 and addresses are distinct |
| `AddressPool.WireguardServer.AddClient` | client/configurators/wireguard_configurator.cpp:79-146 | reads the file back, allocates and appends; the file stays valid |
| `IpRanges.HalvesPartition` | client/mozilla/shared/ipaddress.cpp:201-233 | with the first bit after the prefix clear, the halves of a block are disjoint, cover it and keep its host bits |
| `IpRanges.OverlapMeaning` | client/mozilla/shared/ipaddress.cpp:141-147 | blocks that do not overlap are disjoint; of two that do, the longer lies in the shorter |
| `IpRanges.CutExactly` | client/mozilla/shared/ipaddress.cpp:258-284 | for every block and every other one in it, the walk down the halves ends and covers exactly the difference if and only if the host bits of the two are equal |
| `IpRanges.CutWhenAligned` | client/mozilla/shared/ipaddress.cpp:258-284 | then it leaves one part for each bit between the lengths, each with the same host bits |
| `IpRanges.CutWhenUnaligned` | client/mozilla/shared/ipaddress.cpp:263-273 | otherwise it never ends, or what it leaves still has the address to be cut out |
| `IpRanges.StuckSource` | client/mozilla/shared/ipaddress.cpp:263-273 | for every address width an input on which the loop never ends, with a host bit set in the block |
| `IpRanges.StuckExclude` | client/mozilla/shared/ipaddress.cpp:263-273 | for every address width one with the host bit in the block to cut out alone |
| `IpRanges.ExcludeOne` | client/mozilla/shared/ipaddress.cpp:258-284 | the loop computes that walk, and reports where the source would never end |
| `IpRanges.ExcludeEach` | client/mozilla/shared/ipaddress.cpp:240-252 | for any list and one excluded block the result covers exactly the difference if and only if every block that is cut has the host bits of the excluded one |
| `IpRanges.ExcludeAddresses` | client/mozilla/shared/ipaddress.cpp:236-256 | the list difference covers exactly the addresses of the sources that no excluded block has, when each excluded block has the host bits of every source it lies in |

## Left out

- Parsing of the remaining configuration fields in the daemon, and the dispatch of commands to it: type checks with one branch each.
- The kill switch, firewall rules and the exclusion routes that platform backends add for a peer's own endpoint: platform code behind the backend interface.
- Effects of a platform hook on the operating system: the hook is a call that may fail and changes nothing.
- OpenVPN, Cloak, Shadowsocks, Xray and IKEv2, the privileged helper processes, and the SSH client: process launching around external programs.
- The branch of the split-tunnel configuration for API-provided servers, and per-application split tunnelling.
- IPv6 sites: stored sites are IPv4 texts; the IPv6 default route is carried but no IPv6 address is looked up.
- Signed or blank-padded prefix lengths: a prefix length is a string of digits.
- Ping statistics other than the ring (average, maximum, loss, deviation).
- ICMP ping senders: only the checksum and the DNS sender are modelled.
- Negative server indices: an index is a natural number.
- Failures of the remote scripts and uploads during client creation: they leave the file as it is.
- The text surgery that removes a client from the server file: removal takes out one whole section.
- Concurrency inside the settings store: every operation holds its mutex.
- Map iteration inside one poll is by hop; Qt signal delivery between objects is immediate.
- Framing.Daemon.ReadData: reads return non-empty pieces until nothing is left, because an empty read ends the loop.
- SecureSettings.BackupThenRestore: byte arrays come back as the equal text, because JSON has no byte arrays.
- SplitTunnel.Translate: the server and DNS texts hold no slash, as addresses do.
- AddressPool.RunValid: subnet texts are digits and dots, and no key text contains the word the listing searches for.
- AddressPool.NextAddress: a signed text is no number, and the number after 2147483647 is the pool error, because the sum overflows in the source.
- IpRanges.ExcludeAddresses: for several excluded blocks the condition is sufficient only, because a later exclusion can remove what an earlier one failed to; the exact condition is that of each round, `IpRanges.ExcludeEach`.
- AddressCuts.CutListing: one line is cut, once.
