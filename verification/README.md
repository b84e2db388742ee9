# A verified model of macdetect

`macdetectd` watches the network devices of a machine, keeps a table of the hardware addresses it hears on each
device, and tells subscribed clients over TCP what changes. This project models that daemon and the library below it
and proves what a maintainer relies on:

- **The event log is complete and sound.** Every cycle of the network monitor changes its device list, address table
  and evidence map in place, by loops that erase and start over, and appends events. Every fact about the new state
  (a device with its flags and addresses, an address on a device, a piece of evidence) is the replay of the cycle's
  events over the old state; every event reports a real change and names the right former value; replaying a log twice
  is the same as replaying it once. This is carried over whole runs.
- **Clients hold the table.** Folding the messages that the daemon sends to a client gives exactly the monitor's table
  after every cycle: the addresses on a device for its subscribers, the names of the known devices for everyone. This
  includes the cycle in which the table was sent and the one in which the device goes away, and it is carried over the
  wire to the messages that the client has received.
- **Subscriptions and servings stay safe** over all runs from the constructor that mix serving, configuring, stopping and
  cycling, and requests have exactly stated effects.
- **The wire format round-trips**: encoding, decoding, unique framing, growing buffers, short writes, first in first
  out, and what a failed send leaves behind.
- **The two Internet checksums agree** exactly on data with a nonzero byte; stored checksums verify; changed words are
  detected.
- **Frames, configuration files, serving numbers and rate limits** have their own laws.

## How the model is built

Each class of the source that changes its fields is a Dafny class with the same fields and the same loops (`Network`,
`Device`, `Daemon`, `Server`, `Value`, `PacketEntity`, `Config`). Its methods are proved to do to the state what a
function of a value-level module says (`NetworkModel`, `ServerModel`, `DaemonModel`, `Codec`, `ConfigModel`,
`Checksums`). The laws are lemmas about those functions and about runs of them.

| files | what they hold |
|---|---|
| `Basics`, `Ordering`, `Trees` | options, bytes, the key order of a sorted map, message trees |
| `Addresses`, `Checksum`, `Frames` | address texts, Internet checksums, Ethernet frames and the ping |
| `NetworkModel`, `Network`, `Device` | the monitor as a value and as classes |
| `EventLog`, `NetworkLaws`, `NetworkCycle`, `NetworkRuns` | what events mean; what operations, cycles and runs keep |
| `Policies`, `Observations` | what the list of patterns means; what a cycle takes over from the system and from frames |
| `ServerModel`, `Server`, `ServingNumbers` | servings and connections, and what serving numbers name over runs |
| `DaemonModel`, `Daemon`, `Subscriptions`, `DaemonRuns` | the daemon, its streams, and its runs from the constructor |
| `Transcript`, `Mirror`, `Subscribers`, `Answers`, `EvidenceMirror` | what clients are told and what they can reconstruct |
| `Rates`, `PingRates` | how often keepalives and pings are sent |
| `Codec`, `Layout`, `Value`, `PacketEntity`, `Delivery` | the wire format, message objects, streams, and the mirror behind them |
| `ConfigModel`, `Config`, `ConfigRoundTrip` | the configuration language |

Choices that matter when reading it:

- What the operating system answers in one cycle is an input: interface names, flags, addresses, one frame per device,
  the resolver, listen, accept and receive results, how much a write takes, and every clock reading. The clock is
  non-negative and never runs backwards. Time is `real`.
- `regex_match`, the vendor lookup and the printing of times are uninterpreted functions.
- A connection (a shared pointer to a `Served` object) is its connection number; what is handed to it is appended to
  its outbox.
- `std::map` is visited in the order of its keys, and `operator[]` inserts defaults, so a missing piece of evidence and
  an empty one count as the same fact.
- A `char` of a string is one byte. Frames and checksums use numbers from 0 to 255.
- C integer rules are written out where they matter: a read length of -1 compared with a `sizeof`, a 32-bit length
  word, the `int` sum of the deferred-carry checksum, the 16-bit result of both.
- `Network` leaves its auto-manage flag unset; the model starts it as false. `Daemon` sets it to true before use.

## Where the code does not do what one expects

The model follows the code in each of these, and the lemmas named say what holds instead.

- `disable-stream` and `enable-stream` test the stream of the device that serves the client, and `disable-stream` also
  switches that one off (macdetectd/src/Daemon.cpp:194, 212, 213). `Subscriptions.DisableRequest` and `EnableRequest`
  say when the request does what it asks; `DisableRequestFails` and `EnableRequestFails` are concrete clients
  for which it does not.
- Events scheduled between two cycles are cleared at the start of the next one (macdetectd/src/Network.cpp:106), so a
  pattern that bans a known device changes the state without a trace. `NetworkRuns.PatternBetweenCycles` shows that
  the next log explains the facts exactly when the pattern bans no known device; `NetworkRuns.PatternLosesTrace` is a
  concrete case.
- A serving number is free again once a failed serving is dropped (macdetectd/src/Server.cpp:141-155), and the connections
  made on it stay. `ServingNumbers.KeepsNaming` says when a number keeps naming its serving, `StepHolder` what it names
  otherwise; `NumberReused` is a connection that is looked up under another device.
- The daemon ignores the results of its sends. After a send that wrote a part of its message, the client takes the start of
  the next one for the rest of it (`PacketEntities.FramingLost`).
- A device that goes and comes back has a new ping timer, so it may ping too early. `PingRates.SpacedExactly` and
  `ReturnBreaks` say when; `PingsTwice` is a run of three cycles.
- What a pattern removes between two cycles is not told to clients either: `Mirrors.PatternMirrors` says exactly when they
  still hold the table; `PatternUnnoticed` is a concrete case.
- Changes of evidence are told to the subscribers of one device, so a client with too few streams misses some:
  `EvidenceMirrors.ToldExactly` says when, `RunKnows` what is enough, and `ChangeMissed` is a concrete case.
- The branch for a read error (macdetectd/src/Network.cpp:526) is never taken, because -1 is converted to a huge
  unsigned number in the comparison before it. `NetworkCycle.FailedPollHarmless` shows that the zeroed buffer makes
  this harmless.
- `Config::list` throws exactly on a missing term and on a blank piece (`ConfigRoundTrip.RefusedExactly`).
- The two checksum functions differ on data without a nonzero byte, and only there (`Checksums.ChecksumsAgree`).
- Messages about device states and evidence do not name the device; `Answers.SameMessage` says exactly what is lost.
- The total length field of the ping header is 84 although 40 bytes follow the Ethernet header
  (macdetectd/src/Device.cpp:129); the model keeps the 84.
- A value that is not a request makes `Daemon::cycle` use a null response (macdetectd/src/Daemon.cpp:227). The methods
  of the `Daemon` class that handle values therefore require requests. The functions of `DaemonModel` do not look at the
  key, so what they and the laws about them say of other values does not describe the code.
- `PacketEntity::receive` does not wait for the rest of a message, and `deserialize` ignores its length argument and
  appends to existing children. `PacketEntity.Receive` requires a whole message at the head of a nonempty stream;
  `Value.Deserialize` states the appending.

## Model

| member | source | states |
|---|---|---|
| `NetworkRuns.CycleLog` | macdetectd/src/Network.cpp:102-178 | After any cycle every fact is the replay of the cycle's events over the fact before; each event is a real change with the right former value; replaying the events again changes nothing |
| `NetworkRuns.CycleKeeps` | macdetectd/src/Network.cpp:102-178 | Every cycle keeps the table invariant and logs all it changes |
| `NetworkRuns.RunLog` | macdetectd/src/Network.cpp:72-178 | Over any run whose patterns ban no device known at the time (as when all are added before the first cycle), the logs of all cycles together explain every fact |
| `NetworkRuns.RunKeeps` | macdetectd/src/Network.cpp:33-178 | The table invariant (unique pairs, known devices, unique device names, no all-zero or broadcast address, first seen before last seen) holds after every run of cycles, list, mode and settings changes and evidence requests |
| `NetworkRuns.EvidenceChain` | macdetectd/src/Network.cpp:439-468 | Over any run the evidence events of one address and field form a chain of former and new values without repetition that ends in what the map holds, also after the address left the table |
| `NetworkRuns.PatternBetweenCycles` | macdetectd/src/Network.cpp:72-106 | The next log explains all changes since before a pattern was added if and only if the pattern bans no known device |
| `NetworkRuns.BannedUnexplained` | macdetectd/src/Network.cpp:72-106 | A device banned between two cycles is gone after the next one, and no log says so |
| `NetworkRuns.PatternLosesTrace` | macdetectd/src/Network.cpp:72-106 | A concrete monitor and pattern for which this happens |
| `EventLog.ReplayIdempotent` | macdetectd/src/Network.cpp:413-415 | Replaying any list of events a second time changes no fact |
| `EventLog.ReplayConcat` | macdetectd/src/Network.cpp:409-415 | Replay and soundness of a log split at any point |
| `NetworkCycle.AddMacKeeps` | macdetectd/src/Network.cpp:570-595 | Hearing an address keeps the invariant and is logged; a Discovered event is scheduled if and only if an entry is appended |
| `NetworkCycle.LastSeenSpec` | macdetectd/src/Network.cpp:610-622 | The result -1 of macLastSeen means exactly that no entry of the pair is listed |
| `NetworkCycle.UpdateEvidenceKeeps` | macdetectd/src/Network.cpp:458-468 | An evidence update keeps the invariant and logs exactly its change |
| `NetworkCycle.HearKeeps` | macdetectd/src/Network.cpp:483-529 | Handling one frame keeps the invariant and is logged |
| `NetworkCycle.FailedPollHarmless` | macdetectd/src/Network.cpp:488-528 | A failed read, taken for a frame because of the unsigned comparison, changes nothing |
| `NetworkCycle.DetectKeeps` | macdetectd/src/Network.cpp:483-537 | Polling all devices and checking host names keeps the invariant and is logged |
| `NetworkCycle.ManageKeeps` | macdetectd/src/Network.cpp:110-135 | Reconciling with the system keeps the invariant and is logged; known afterwards are the system names known before or allowed |
| `NetworkCycle.MaintainAtLogged` | macdetectd/src/Network.cpp:293-361 | Refreshing the flags and addresses of one device is logged, with the former values |
| `NetworkCycle.MaintainKeeps` | macdetectd/src/Network.cpp:137-139 | Refreshing all devices keeps the invariant and the known names and is logged |
| `NetworkCycle.DropKeeps` | macdetectd/src/Network.cpp:141-156 | Ageing keeps the invariant and is logged |
| `NetworkLaws.SurvivorsSpec` | macdetectd/src/Network.cpp:141-156 | What ageing or a device removal leaves are exactly the entries it does not hit |
| `NetworkLaws.SurvivorsConcat` | macdetectd/src/Network.cpp:141-156 | Dropping is a filter that keeps the order, with one Disappeared event per dropped entry in table order |
| `NetworkLaws.DropLogged` | macdetectd/src/Network.cpp:141-156 | The Disappeared events explain the dropped entries |
| `NetworkLaws.AddDeviceKeeps` | macdetectd/src/Network.cpp:184-205 | Adding a device keeps names unique, also when the system lists a name twice, and is logged |
| `NetworkLaws.RemoveDeviceKeeps` | macdetectd/src/Network.cpp:207-237 | Removing a device removes it and its entries, keeps the rest and is logged |
| `NetworkRuns.NoStaleEntries` | macdetectd/src/Network.cpp:141-156 | After a cycle no entry is older than the maximum age at cycle start |
| `NetworkRuns.HeardSurvives` | macdetectd/src/Network.cpp:141-156 | An allowed address heard in a cycle is in the table after it when the maximum age is not negative and its device stays |
| `NetworkRuns.OwnMacLeaves` | macdetectd/src/Network.cpp:550-595 | An address owned by a known device is not refreshed, so its entry is gone after the first cycle past its age |
| `NetworkRuns.OwnMacNeverRefreshed` | macdetectd/src/Network.cpp:550-595 | Over any run in which an address is refused in every cycle, its entries are never refreshed and none is added; those left are not too old for any cycle of the run |
| `NetworkRuns.HostnamesFilled` | macdetectd/src/Network.cpp:439-456 | When the check is due, every allowed address with an IP and no host name gets the name the resolver gives for that IP |
| `NetworkRuns.CycleDevices` | macdetectd/src/Network.cpp:110-135 | Known after a cycle are exactly the system names that were known or are allowed; without auto-management, those known before |
| `NetworkRuns.AddPatternKeeps` | macdetectd/src/Network.cpp:72-85 | After a pattern is added, known are exactly the devices known before that the new list allows |
| `NetworkRuns.KnownStaysAllowed` | macdetectd/src/Network.cpp:72-135 | With a fixed mode and patterns only added, every known device stays allowed in every run |
| `NetworkRuns.AutoManageConverges` | macdetectd/src/Network.cpp:110-135 | After each cycle of such a run the known names are exactly the system names that the list allows |
| `Policies.AllowedExactly` | macdetectd/src/Network.cpp:87-100 | A whitelist allows a name if and only if some pattern matches it, a blacklist if and only if none does |
| `Policies.NoPatterns` | macdetectd/src/Network.cpp:87-100 | Without patterns a whitelist allows nothing and a blacklist everything |
| `Policies.OneMorePattern` | macdetectd/src/Network.cpp:72-100 | One more pattern adds to a whitelist exactly the names that it matches, and takes exactly these from a blacklist |
| `Policies.ModeSwitched` | macdetectd/src/Network.cpp:87-100 | The other mode gives the opposite answer for every name |
| `Policies.KnownByPatterns` | macdetectd/src/Network.cpp:72-135 | After every cycle of a run that keeps the mode and only adds patterns, the known names are exactly the system's names that one of the patterns matches (whitelist) or none matches (blacklist), told by matches alone |
| `Policies.CycleOrder` | macdetectd/src/Network.cpp:110-135 | The list after a cycle: the devices known before that the system still has, in their order, and behind them the allowed new ones in the system's order, each once |
| `Observations.DeviceReadings` | macdetectd/src/Network.cpp:184-205 | After a cycle with the control socket open every known device has the flags and addresses that the system reports for it; without the socket it keeps what it had; hardware address and kind are those from when it was added |
| `Observations.FrameEvidence` | macdetectd/src/Network.cpp:490-513 | A frame records its IP address for its sender, and tells of it with the former address, if and only if it is an IP packet from a sender that may be recorded and whose IP address is neither 255.255.255.255 nor 224.x.x.x; no other evidence changes |
| `Observations.FrameTable` | macdetectd/src/Network.cpp:490-595 | A frame from a recordable sender leaves it in the table, last heard now, in its old place with its old first time or at the end; nothing else changes |
| `Observations.BuiltFrame` | macdetectd/src/Network.cpp:490-500 | Where a built frame has its destination, sender, type and sender IP, and when it tells an IP address |
| `Observations.BuiltFrameHeard` | macdetectd/src/Network.cpp:490-513 | Hearing a built frame gives its sender the IP address at bytes 12 to 16 of its payload if it is of type 0x0800 and the address says something, otherwise leaves the one on record |
| `Observations.IpAllowedExactly` | macdetectd/src/Network.cpp:539-548 | The texts "255.255.255.255" and "224..." refuse exactly the addresses with these bytes |
| `Observations.CycleIps` | macdetectd/src/Network.cpp:483-513 | After a cycle the IP address on record for a hardware address is that of its last telling frame of the cycle, or what it was before |
| `Observations.HostnamesOnlyWhenDue` | macdetectd/src/Network.cpp:439-456 | Host names are looked up when the interval has passed since the last time, and otherwise none changes |
| `Observations.HostnameTold` | macdetectd/src/Network.cpp:439-481 | A name that is found is recorded and reported once, for the device of the first entry of the address, or for no device when there is no entry |
| `Observations.CycleStamps` | macdetectd/src/Network.cpp:161-170 | After a cycle no entry without a host name has been waiting for longer than the update interval; stamps are the start of the cycle or unchanged, and nothing else of an entry changes |
| `Networks.Network.constructor` | macdetectd/src/Network.cpp:25-27 | The initial state and the default settings |
| `Networks.Network.Cycle` | macdetectd/src/Network.cpp:102-178 | The in-place cycle does to the whole state what the model cycle says; the result is whether shutdown was not called |
| `Networks.Network.DetectNetworkActivity` | macdetectd/src/Network.cpp:483-537 | One frame per device is handled in order, then host names are checked if due |
| `Networks.Network.HearFrame` | macdetectd/src/Network.cpp:490-528 | Source address and sender IP are read from the frame and recorded |
| `Ordering.KeysIncrease` | macdetectd/src/Network.cpp:439-456 | A map is visited in increasing order of its keys, each once |
| `Networks.Network.CheckHostnames` | macdetectd/src/Network.cpp:439-456 | Every address with an IP and no host name is looked up, in key order |
| `Networks.Network.AddMac` | macdetectd/src/Network.cpp:570-595 | The refresh loop and the append agree with the model; entries of other pairs are untouched |
| `Networks.Network.MacLastSeen` | macdetectd/src/Network.cpp:610-622 | The first entry of the pair decides; -1 without one |
| `Networks.Network.MacAllowed` | macdetectd/src/Network.cpp:550-568 | All-zero, broadcast and, if ignored, own addresses are refused |
| `Networks.Network.UpdateMacEvidence` | macdetectd/src/Network.cpp:458-468 | The map after the update, with the entries that looking inserts, and the event |
| `Networks.Network.MacEvidence` | macdetectd/src/Network.cpp:33-35 | Asking inserts an empty record for an unknown address |
| `Networks.Network.DeviceForMac` | macdetectd/src/Network.cpp:470-481 | The device of the first entry of the address |
| `Networks.Network.ManageDevices` | macdetectd/src/Network.cpp:110-135 | Vanished devices are removed first, then unknown system names are added |
| `Networks.Network.MaintainDeviceStatus` | macdetectd/src/Network.cpp:293-361 | The device has the system's flags and addresses, and one event per difference is appended in order |
| `Networks.Network.MaintainDevices` | macdetectd/src/Network.cpp:137-139 | All devices are refreshed in order |
| `Networks.Network.AgeOut` | macdetectd/src/Network.cpp:141-156 | The erase-and-restart loop ends and equals the order-preserving filter and its events |
| `Networks.Network.StampEntries` | macdetectd/src/Network.cpp:161-170 | Only entries without host name whose interval has passed are stamped |
| `Networks.Network.PingDevices` | macdetectd/src/Network.cpp:172-175 | Every device gets its chance at cycle start time; the devices on which a ping went out are known |
| `Networks.Network.AddDevice` | macdetectd/src/Network.cpp:184-205 | A device is added and reported exactly when allowed, unknown and present |
| `Networks.Network.RemoveDevice` | macdetectd/src/Network.cpp:207-237 | The device goes and is reported before its entries go and are reported |
| `Networks.Network.RemoveMacsOn` | macdetectd/src/Network.cpp:221-234 | The erase-and-restart loop ends and drops exactly the entries on the device, one event each |
| `Networks.Network.RemoveMac` | macdetectd/src/Network.cpp:597-608 | Only the first entry of the pair goes, with an event; nothing happens without one |
| `Networks.EraseFirstHit` | macdetectd/src/Network.cpp:141-156 | Erasing the first entry to be dropped does not change what dropping gives in the end |
| `Networks.Network.DeviceAllowed` | macdetectd/src/Network.cpp:87-100 | Whitelist and blacklist decide by whether any pattern matches |
| `Networks.Network.AddDeviceWhiteBlacklistEntry` | macdetectd/src/Network.cpp:72-85 | The pattern is added and the devices it bans are removed |
| `Networks.Network.KnownDevice` | macdetectd/src/Network.cpp:247-258 | The first device of the name, null exactly when there is none |
| `Devices.Device.Mac` | macdetectd/src/Device.cpp:39-66 | The address text is made once and cached |
| `Devices.Device.SendPingBroadcast` | macdetectd/src/Device.cpp:108-116 | A ping to everyone is built exactly when the interval has passed and the addresses are known; the result is that of the ping; the timer restarts whenever the interval has passed |
| `Addresses.StreamFormat` | macdetectd/src/Network.cpp:417-430 | The stream formatter gives the 17 characters of the address |
| `Addresses.BufferFormat` | macdetectd/src/Device.cpp:48-60 | The fixed-offset formatter gives the same 17 characters |
| `Addresses.EtherAtonOfMacText` | macdetectd/src/Wire.cpp:41-44 | The address parser undoes the formatter |
| `Addresses.MacTextInjective` | macdetectd/src/Network.cpp:417-430 | Different addresses have different texts |
| `Addresses.InetAtonOfIpText` | macdetectd/src/Device.cpp:134-138 | The parser of IP addresses undoes the formatter |
| `Addresses.MacTextSample` | macdetectd/src/Network.cpp:417-430 | A concrete address: lower-case digits, the high one first, zeros kept |
| `Addresses.IpTextSample` | macdetectd/src/Device.cpp:134-138 | A concrete IP address |
| `Frames.WrapInEthernetFrame` | macdetectd/src/Wire.cpp:33-54 | The buffer holds destination, source, type and payload; bytes behind the frame are untouched |
| `Frames.FrameRoundTrip` | macdetectd/src/Network.cpp:490-500 | A frame built from address texts and read as the monitor does gives back source text, type and payload |
| `Frames.OwnFrameIgnored` | macdetectd/src/Network.cpp:550-567 | A frame sent by a known device leaves no trace in the monitor while own addresses are ignored |
| `Devices.SealHeader` | macdetectd/src/Device.cpp:120-140 | Every field of the ping header stands in its place, and the header verifies to zero |
| `Devices.SealMessage` | macdetectd/src/Device.cpp:142-161 | Every field of the echo request (type, process, sequence number 12345 in host order, time) stands in its place, and the request verifies to zero |
| `Devices.Device.SendPing` | macdetectd/src/Device.cpp:118-177 | A ping is built exactly when both addresses are known, and succeeds exactly when it can also be written; destination, source and type, every field of header and message, and both checksums are as they must be, from the device's own hardware and IP address to the given ones |
| `Checksums.IcmpHeaderChecksum` | macdetectd/src/Device.cpp:183-204 | Up to 65536 bytes the sum fits an int and the result is the complement of the one's complement sum, odd lengths included |
| `Checksums.AddCarries` | macdetectd/src/Device.cpp:199-203 | Adding the carries twice is enough |
| `Checksums.TwoFolds` | macdetectd/src/Device.cpp:199-201 | For every sum below 2^31 two folds leave the one's complement sum in the low 16 bits |
| `Checksums.IpHeaderChecksum` | macdetectd/src/Device.cpp:206-236 | The result of adding carries at once, in network byte order |
| `Checksums.ChecksumsAgree` | macdetectd/src/Device.cpp:183-236 | The two functions give the same value if and only if some byte is not zero (byte order independence, section 2 (B) of RFC 1071) |
| `Checksums.SampleChecksum` | macdetectd/src/Device.cpp:183-236 | The numerical example in section 3 of RFC 1071 gives 0x220d in network order with both functions |
| `Checksums.StoredChecksumVerifies` | macdetectd/src/Device.cpp:140-161 | Storing a computed checksum in its zeroed, aligned field makes the same function give 0 |
| `Checksums.ChangedWordDetected` | macdetectd/src/Device.cpp:183-236 | In data that verifies, changing one word to a value not congruent modulo 0xffff is always detected; a congruent change never is (for the deferred-carry function, if a byte elsewhere is not zero) |
| `Servers.Server.FreeServingId` | macdetectd/src/Server.cpp:228-246 | The loop ends with the smallest unused natural number, at most the number of servings |
| `ServerModel.UsedIdsBound` | macdetectd/src/Server.cpp:228-246 | Pigeonhole: n servings cannot use up n + 1 numbers |
| `Servers.Server.Serve` | macdetectd/src/Server.cpp:44-98 | A serving is added under the smallest free number exactly when the pair is new and a socket is made and bound; otherwise nothing changes |
| `ServerModel.ServeKeeps` | macdetectd/src/Server.cpp:44-98 | Serving keeps numbers and (device, port) pairs distinct; the new number is at most the number of servings |
| `ServerModel.LookupIsExact` | macdetectd/src/Server.cpp:248-256 | With distinct numbers every serving is found under its number and nothing under any other |
| `ServingNumbers.ServeLookup` | macdetectd/src/Server.cpp:44-98 | Serving changes what a number names if and only if it is the free number that the new serving takes |
| `ServingNumbers.CycleLookup` | macdetectd/src/Server.cpp:104-155 | After a cycle a number names its serving if and only if the serving works in it, and nothing otherwise |
| `ServingNumbers.StepHolder` | macdetectd/src/Server.cpp:44-155 | What a number names after any step of the daemon, from what it named before |
| `ServingNumbers.KeepsNaming` | macdetectd/src/Server.cpp:44-155 | A number keeps naming its (device, port) pair over a run if and only if its serving works in every cycle of the run |
| `ServingNumbers.NumberReused` | macdetectd/src/Server.cpp:141-155 | A run from the constructor in which a connection made on one device is looked up as one on another |
| `ServingNumbers.AcceptedNumber` | macdetectd/src/Server.cpp:115-138 | A connection accepted in a cycle carries the number of the serving that accepted it, is greeted once with the server's name, stays unless it breaks, and its requests look up that serving's device if the serving works |
| `ServingNumbers.OrderKept` | macdetectd/src/Server.cpp:157-174 | Values are queued and failed connections collected in the order of the connections |
| `ServingNumbers.AliveInOrder` | macdetectd/src/Server.cpp:141-155 | Working servings keep their order |
| `Servers.Server.ServingById` | macdetectd/src/Server.cpp:248-256 | The first serving of the number, or the invalid one |
| `ServerModel.ServingByIdSpec` | macdetectd/src/Server.cpp:248-256 | With distinct numbers the lookup finds exactly the serving that carries the number |
| `Servers.Server.LookAtServings` | macdetectd/src/Server.cpp:104-139 | Each serving is listened on once, accepts at most one connection and greets it |
| `Servers.Server.DropDeadServings` | macdetectd/src/Server.cpp:141-155 | The erase-and-restart loop ends and equals the filter of servings that work |
| `Servers.Server.ReceiveValues` | macdetectd/src/Server.cpp:157-174 | Each connection is read once; values are queued with their origin, failed connections are collected |
| `Servers.Server.Forget` | macdetectd/src/Server.cpp:176-189 | A failed connection moves from the served to the removed list |
| `Servers.Server.Cycle` | macdetectd/src/Server.cpp:100-193 | The in-place cycle does to the whole state what the model cycle says |
| `Servers.Server.QueuedValues` | macdetectd/src/Server.cpp:262-267 | The queue is handed out once |
| `Servers.Server.TakeRemoved` | macdetectd/src/Server.cpp:279-284 | The removed list is handed out once |
| `ServerModel.CycleKeeps` | macdetectd/src/Server.cpp:100-193 | Connection and serving numbers stay distinct; no connection is both queued and removed; queued values come from connections that stay; removed ones are served no more; only started servings stay; earlier connections get nothing |
| `ServerModel.ListenKeeps` | macdetectd/src/Server.cpp:104-155 | Accepting adds connections with new numbers at the end and keeps the others |
| `ServerModel.ReadAllKeeps` | macdetectd/src/Server.cpp:157-189 | Every connection is either kept or removed, never both, and only kept ones queue values |
| `Daemons.Daemon.constructor` | macdetectd/src/Daemon.cpp:25-28 | The initial state from which the laws about all runs start |
| `Daemons.Daemon.Serve` | macdetectd/src/Daemon.cpp:424-426 | Serving does to the whole state what the model step says |
| `Daemons.Daemon.Configure` | macdetectd/src/Daemon.cpp:38-59 | Patterns, mode and settings do to the whole state what the model step says |
| `Daemons.Daemon.SetKeepAliveInterval` | macdetectd/src/Daemon.cpp:51-51 | Only the interval changes |
| `Daemons.Daemon.Shutdown` | macdetectd/src/Daemon.cpp:415-418 | Server and monitor stop; nothing else changes |
| `Daemons.Daemon.Cycle` | macdetectd/src/Daemon.cpp:93-378 | The in-place cycle does to the whole state what the model cycle says; it succeeds exactly when nothing was shut down |
| `Daemons.Daemon.Prepare` | macdetectd/src/Daemon.cpp:96-117 | A cycle of the server, then every stream of a removed connection is erased |
| `Daemons.Daemon.DropClient` | macdetectd/src/Daemon.cpp:99-114 | The erase-and-restart loop ends and erases exactly the streams of the connection |
| `Daemons.Daemon.AnswerRequest` | macdetectd/src/Daemon.cpp:119-225 | Answer and effect of each request |
| `Daemons.Daemon.AnswerEnable` | macdetectd/src/Daemon.cpp:188-205 | The test uses the serving device, the effect the requested one |
| `Daemons.Daemon.AnswerDisable` | macdetectd/src/Daemon.cpp:206-224 | Test and effect use the serving device, the answer names the requested one |
| `Daemons.Daemon.HandleValues` | macdetectd/src/Daemon.cpp:119-229 | Every queued request is answered, in order, to the connection it came from |
| `Daemons.Daemon.EndStreamsOf` | macdetectd/src/Daemon.cpp:263-281 | The erase-and-restart loop ends, tells each subscriber of the device once and erases the stream |
| `Daemons.Daemon.DeviceHardwareType` | macdetectd/src/Network.cpp:363-407 | A known device has the kind it was added with, an unknown one the kind the system reports |
| `Daemons.Daemon.MessageOf` | macdetectd/src/Daemon.cpp:235-345 | The message of each event, with the kind of the device looked up for an added one |
| `Daemons.Daemon.RouteEvents` | macdetectd/src/Daemon.cpp:231-356 | Every event reaches, in order, the subscribers of its device or all clients |
| `Daemons.Daemon.SendKeepAlive` | macdetectd/src/Daemon.cpp:361-372 | A keepalive goes to every connection exactly when it is due |
| `Daemons.Daemon.Enable` | macdetectd/src/Daemon.cpp:380-384 | A stream is never entered twice |
| `Daemons.Daemon.Disable` | macdetectd/src/Daemon.cpp:386-399 | The stream is erased; the result says whether it was there |
| `Daemons.Daemon.IsStreamEnabled` | macdetectd/src/Daemon.cpp:401-413 | Whether the pair is in the list |
| `Subscriptions.CycleSafe` | macdetectd/src/Daemon.cpp:93-378 | After a cycle each stream belongs to a connected client and no pair occurs twice |
| `DaemonRuns.FromTheStart` | macdetectd/src/Daemon.cpp:25-427 | From the constructor, after any mix of serving, configuring, stopping and cycling: streams belong to connected clients, no pair occurs twice, serving numbers and (device, port) pairs are distinct, a number finds exactly its serving, and the table invariant holds |
| `DaemonRuns.RunKeeps` | macdetectd/src/Daemon.cpp:93-427 | Every such run keeps the invariants of daemon, server and monitor |
| `DaemonRuns.MonitorRun` | macdetectd/src/Daemon.cpp:93-229 | The monitor inside a daemon goes through a run of its own, evidence requests included, so every law about runs of the monitor holds in it |
| `Subscriptions.WithoutClientsSpec` | macdetectd/src/Daemon.cpp:98-114 | What is left are exactly the streams of other connections |
| `Subscriptions.DisableStreamSpec` | macdetectd/src/Daemon.cpp:386-399 | Only the given stream goes |
| `Subscriptions.RouteAllKeeps` | macdetectd/src/Daemon.cpp:231-356 | The streams left after routing are exactly those whose device was not removed; the monitor is untouched |
| `Subscriptions.DisableRequest` | macdetectd/src/Daemon.cpp:206-224 | The requested stream is off afterwards if and only if it was off or the client is served on that device |
| `Subscriptions.EnableRequest` | macdetectd/src/Daemon.cpp:188-205 | The requested stream is on afterwards if and only if it was on or the stream of the serving device was off |
| `Subscriptions.DisableRequestFails` | macdetectd/src/Daemon.cpp:206-224 | A client without streams that enables two devices and then disables the first loses the second |
| `Subscriptions.EnableRequestFails` | macdetectd/src/Daemon.cpp:188-205 | A client that enables the device that serves it and then another does not get the other |
| `Mirrors.RunMirrors` | macdetectd/src/Daemon.cpp:93-427 | After every step since its answer was sent, for as long as it is connected (and, for the addresses on a device, subscribed), what a client folds from its messages is exactly the monitor's table: the addresses on the device, or the names of the known devices |
| `Subscribers.SubscriberMirrors` | macdetectd/src/Daemon.cpp:93-427 | The same from outside: a client that asks, stays connected and switches nothing off holds exactly the table after every step of a run in which the system keeps the device and no pattern takes anything from the table |
| `Subscribers.SubscriptionArises` | macdetectd/src/Daemon.cpp:93-427 | From the constructor: a pattern, serving, one connection, one request and one frame lead to such a client, with a known device and an address on its table |
| `Subscribers.ConnectionLasts` | macdetectd/src/Server.cpp:157-189 | A connection lasts over every cycle in which it does not break |
| `Subscribers.StreamLasts` | macdetectd/src/Daemon.cpp:96-281 | A stream lasts over every cycle in which its connection does not break, its client switches nothing off and the system has the device |
| `Subscribers.ConnectionRead` | macdetectd/src/Server.cpp:157-189 | What an unbroken connection sent is queued under its number, and it is not removed |
| `Mirrors.CycleMirrors` | macdetectd/src/Daemon.cpp:96-372 | One cycle keeps client and table in agreement, also when the table is sent in it or the device is removed in it |
| `Mirrors.PatternMirrors` | macdetectd/src/Network.cpp:72-106 | A pattern added between two cycles keeps client and table in agreement if and only if it takes nothing from the table: no known name, or not the device, unless no address was heard on it |
| `Mirrors.PatternUnnoticed` | macdetectd/src/Network.cpp:72-106 | A concrete client that goes on holding an address although the table of its device is empty |
| `EvidenceMirrors.ToldExactly` | macdetectd/src/Daemon.cpp:330-355 | A client that knows a piece of evidence knows it after a change if and only if all clients are told or it has a stream on the device of the change |
| `EvidenceMirrors.ChangeMissed` | macdetectd/src/Daemon.cpp:330-355 | A concrete client without streams that goes on believing an old IP address |
| `EvidenceMirrors.CycleKnows` | macdetectd/src/Daemon.cpp:173-372 | In one cycle a client that knows the evidence or asks for it, stays connected and is told every change, knows it at the end |
| `EvidenceMirrors.RunKnows` | macdetectd/src/Daemon.cpp:93-427 | Over any run such a client holds, field by field, exactly the evidence of the address |
| `Mirrors.FollowCycle` | macdetectd/src/Network.cpp:102-178 | Following the events of a cycle from the old table, or again from the new one, gives the new table |
| `Mirrors.HandleAllHeld` | macdetectd/src/Daemon.cpp:126-172 | Of all answers only the one to known-mac-addresses (for addresses) or devices-list (for names) touches what a client holds, and it sets it to the table |
| `Mirrors.RouteAllHeld` | macdetectd/src/Daemon.cpp:231-356 | A client that agrees with a set follows exactly the events of its subject |
| `Mirrors.RouteAllCleared` | macdetectd/src/Daemon.cpp:263-285 | When a device is removed its subscribers end up with an empty table, although the Disappeared events no longer reach them |
| `Transcripts.AnnounceOutbox` | macdetectd/src/Daemon.cpp:347-355 | Each client entitled to a message gets it once, any other not at all |
| `Transcripts.EndStreamsOutbox` | macdetectd/src/Daemon.cpp:263-281 | When a device is removed, exactly its subscribers are told so, once |
| `Transcripts.EventOutbox` | macdetectd/src/Daemon.cpp:231-356 | Which messages an event sends, kind by kind: added, removed, state and evidence of a device reach every connected client once, with or without streams; the three events about an address reach a client if and only if it has a stream on the device or no device is named |
| `Transcripts.EventTold` | macdetectd/src/Daemon.cpp:93-378 | The same over a whole cycle: where the message of each event stands in what a connected client gets |
| `Transcripts.RouteAllOutbox` | macdetectd/src/Daemon.cpp:231-356 | The events of a cycle tell a client exactly their messages, in order: those about devices always, those about addresses as long as its stream on their device is on |
| `Transcripts.CycleOutbox` | macdetectd/src/Daemon.cpp:93-378 | In a cycle a client that was and stays connected gets the answers to its requests, then what the events tell it, then a keepalive if due; nothing else, in this order |
| `Mirrors.RemovalReason` | macdetectd/src/Network.cpp:110-130 | A cycle reports a removal only of a known device that the system lost |
| `Answers.DevicesAnswered` | macdetectd/src/Daemon.cpp:126-154 | From a devices-list answer a client reads name, addresses and kind of every known device, in order |
| `Answers.MacsAnswered` | macdetectd/src/Daemon.cpp:155-172 | From a known-mac-addresses answer a client reads, entry by entry in table order, the address, the device, when it was last and first heard, and the vendor |
| `Answers.EnableAnswered` | macdetectd/src/Daemon.cpp:188-205 | What enable-stream answers, with the device that was asked for: missing name, already enabled or success |
| `Answers.DisableAnswered` | macdetectd/src/Daemon.cpp:206-224 | What disable-stream answers, with the device that was asked for: missing name, already disabled or success |
| `Answers.NothingAnswered` | macdetectd/src/Daemon.cpp:119-229 | Any other request, and mac-evidence without an address, gets an empty answer and changes nothing but the outbox |
| `Answers.EvidenceAnswered` | macdetectd/src/Daemon.cpp:173-187 | In a mac-evidence answer a client finds exactly the fields that the map holds, and the address under mac-address |
| `Answers.MessageRead` | macdetectd/src/Daemon.cpp:238-345 | From the message of an event a client reads back, by the names of the fields, the carried part of the event, and the kind of an added device or the vendor of a new address |
| `Answers.SameMessage` | macdetectd/src/Daemon.cpp:287-340 | Two events have the same message if and only if they differ at most in the device of a state or evidence change |
| `Rates.KeepAliveRate` | macdetectd/src/Daemon.cpp:361-372 | n keepalive rounds of a run with one interval, n > 1, take more than n - 1 intervals |
| `Rates.KeepAliveComes` | macdetectd/src/Daemon.cpp:361-372 | A successful cycle sends a keepalive if and only if it reads the clock more than an interval after the last round |
| `Rates.KeepAlivesArrive` | macdetectd/src/Daemon.cpp:361-372 | A client that stays connected gets exactly one keepalive message per round |
| `PingRates.CyclePings` | macdetectd/src/Network.cpp:172-175 | In a cycle pings are broadcast on exactly the devices whose interval has passed and whose addresses are known; the timer restarts at cycle start exactly when the interval has passed |
| `PingRates.PingsExactly` | macdetectd/src/Network.cpp:110-175 | Exactly when a cycle broadcasts a ping on a device, told from the state before the cycle, for known and for unknown devices |
| `PingRates.SpacedExactly` | macdetectd/src/Device.cpp:108-116 | Over any run of the monitor with one interval, the pings of a device are an interval apart if and only if it never pings, after it came back, less than an interval after its last ping before it went |
| `PingRates.PingRate` | macdetectd/src/Device.cpp:108-116 | n ping broadcasts on such a device take at least n - 1 intervals |
| `PingRates.StaysNeverReturns` | macdetectd/src/Network.cpp:72-135 | A device that no cycle and no pattern takes away is such a device |
| `PingRates.DaemonPingRate` | macdetectd/src/Device.cpp:108-116 | The same over any run of a daemon: n broadcasts on a device that stays take at least n - 1 intervals |
| `PingRates.ReturnBreaks` | macdetectd/src/Device.cpp:25-25 | Exactly when a device that went and comes back pings too early: it is allowed and present, its addresses can be read, and its new timer, which starts from zero, has run out |
| `PingRates.PingsTwice` | macdetectd/src/Device.cpp:108-116 | A run of three cycles with two pings two seconds apart, although the interval is ten |
| `Codec.DecodeOfEncode` | utils/src/Value.cpp:45-129 | Every encoding of a tree below 2^31 bytes, whatever follows it, decodes to the tree and its exact length |
| `Codec.EncodeOfDecode` | utils/src/Value.cpp:95-129 | The bytes a decoding uses are the encoding of its result |
| `Codec.DecodeExtends` | utils/src/Value.cpp:95-129 | What follows a message does not change how it is read |
| `Codec.PrefixFree` | utils/src/Value.cpp:45-93 | No encoding is a prefix of another |
| `Codec.UniqueFraming` | utils/src/Value.cpp:45-93 | A concatenation of encodings comes from one sequence of trees only |
| `Codec.PartNeverDecodes` | utils/src/Value.cpp:95-129 | A message that is cut short does not read as a message |
| `Layouts.Layout` | utils/src/Value.cpp:45-93 | Where everything stands in an encoding: length of the key, lowest byte first, the key, length of the content, the content, number of children, the children back to back |
| `Layouts.LayoutDetermines` | utils/src/Value.cpp:45-129 | Bytes laid out like this are the encoding, so the layout fixes every byte |
| `Layouts.RequestBytes` | utils/src/Value.cpp:45-129 | The 31 bytes of the request devices-list, and that they are read as it |
| `Values.Value.Serialize` | utils/src/Value.cpp:45-93 | Returns the encoded size if and only if it fits, otherwise -1; writes the encoding, so that every length, text and child stands in the buffer where the format has it, and nothing outside the given part of the buffer |
| `Values.Value.Deserialize` | utils/src/Value.cpp:95-129 | Sets key and content, appends the children that the bytes encode and returns the bytes used |
| `Values.Value.Add` | utils/src/Value.cpp:34-43 | The child is appended |
| `Values.Value.Sub` | utils/src/Value.cpp:179-191 | The first child with the key, null exactly when there is none |
| `PacketEntities.PacketEntity.Pack` | utils/src/PacketEntity.cpp:43-57 | The grow loop ends with the smallest multiple of 2048 that holds the encoding |
| `PacketEntities.PacketEntity.Send` | utils/src/PacketEntity.cpp:40-80 | However short the writes: true means that exactly the encoding was appended to the stream, false that a proper prefix of it was; false needs a write that takes nothing |
| `PacketEntities.PacketEntity.PeekAll` | utils/src/PacketEntity.cpp:101-118 | The grow loop ends with all queued bytes seen |
| `PacketEntities.PacketEntity.Receive` | utils/src/PacketEntity.cpp:96-141 | A queued message is returned and exactly its bytes are consumed; an empty stream that is closed or broken sets the failure state |
| `PacketEntities.ActKeepsOrder` | utils/src/PacketEntity.cpp:40-141 | Each send and each receive keeps the order; a receive with bytes queued finds a whole message |
| `PacketEntities.Fifo` | utils/src/PacketEntity.cpp:40-141 | After any mix of sends and receives the trees received are the first ones sent, in order, and the stream holds the encodings of the others |
| `PacketEntities.Delivers` | utils/src/PacketEntity.cpp:96-141 | Receiving as often as there are trees under way returns exactly the trees sent and empties the stream |
| `PacketEntities.FailedSend` | utils/src/PacketEntity.cpp:59-80 | After a failed send everything sent before still arrives in order, and the part left behind does not read as a message |
| `PacketEntities.FramingLost` | utils/src/PacketEntity.cpp:59-80 | What is sent after a failed send: the receiver reads the next message, to its end, if and only if no byte of the failed one was written; otherwise the first message it reads, if any, reaches into the next one |
| `PacketEntities.Drive` | utils/src/PacketEntity.cpp:40-141 | One send or receive between two real ends does to stream and received trees exactly what the step on values does |
| `Deliveries.PartlyDelivered` | utils/src/PacketEntity.cpp:40-141 | At any time a client holds what the daemon told it up to some message |
| `Deliveries.EndToEnd` | utils/src/PacketEntity.cpp:40-141 | What a subscriber folds from the messages received over the stream, once all are received, is exactly the monitor's table |
| `Configs.Config.SplitString` | utils/src/Config.cpp:31-42 | The lines of the text without white space at their ends |
| `Configs.Config.Filter` | utils/src/Config.cpp:44-81 | Comments outside strings and empty lines are gone |
| `Configs.Config.CutLine` | utils/src/Config.cpp:50-70 | The quote state machine cuts at the first # outside a string |
| `Configs.Config.ParseLines` | utils/src/Config.cpp:83-100 | Sections and assignments, later ones winning |
| `Configs.Config.LoadFromString` | utils/src/Config.cpp:102-109 | The loaded text replaces what was there |
| `Configs.Config.GetValue` | utils/src/Config.cpp:124-141 | The assigned value, cut if quoted, or the default |
| `Configs.Config.GetList` | utils/src/Config.cpp:143-192 | The pieces between commas outside strings, cleaned; nothing where the source throws |
| `ConfigRoundTrip.RoundTrip` | utils/src/Config.cpp:31-192 | Loading any printed document of sections, flags and lists whose items are in double quotes, in single quotes or bare, with white space and comments, and asking for any list, gives the items it assigns last, in order; a term it does not assign is refused |
| `ConfigRoundTrip.SingleValue` | utils/src/Config.cpp:124-141 | A value in double quotes comes back without them, one in single quotes with them, bare text as it is; a term not assigned gives the default |
| `ConfigRoundTrip.ShippedRead` | macdetectd/config/default.config:1-13 | The shipped configuration, whatever its comments say, is such a document, and is read as it is meant |
| `ConfigRoundTrip.ListOfPrinted` | utils/src/Config.cpp:143-192 | A printed list splits into exactly its items; a quoted item may contain anything but its own quote, also commas, # and = |
| `ConfigRoundTrip.RefusedExactly` | utils/src/Config.cpp:143-192 | A list is refused if and only if its term is missing or a piece between top-level commas is blank |

## Left out

- Sockets, ioctl, bind, listen, accept and multicast calls: only their results are inputs.
- The UDP discovery classes: datagrams with a thin protocol of their own; `Daemon.Cycle` skips their cycle.
- `SocketReader`, `Wire::createSocket`, `Wire::write`, `Device::read`: buffers around system calls; a poll is an input.
- The Python interface, its SQLite storage and the CPython binding: the client is defined by the messages it gets.
- `ArgumentParser`, the vendor table `Data`, and the accessors of `Event`, `Served` and `Client`: they would only add easy members.
- `RARP`: unfinished and not called.
- `Daemon::parseConfigFile`, `Config::loadFromFile` and `Config::doubleValue`: file access, number parsing of the C library, and calls of what is modelled; the calls are steps of `DaemonRuns`.
- `Value::copy` and `Value::print`, `Server::distributeStreamValue`, setters and getters: easy members.
- The mutex of `PacketEntity`: sends and receives are atomic.
- Memory of the C++ program: stack buffers, string terminators of `sprintf`, the 28 bytes copied for a 20-byte echo request. Only the meaningful bytes are modelled.
- A shutdown during a cycle: the flags are read between cycles.
- New bytes arriving between the peeks of one receive.
- The daemon does not look at the results of its sends, so `DaemonModel` appends every message to the outbox. The mirror theorems are about messages handed to the connection, and `Deliveries` about connections whose sends succeed.
- Forms of IP addresses that `inet_aton` reads besides four decimal numbers: the texts here come from `inet_ntoa`.
- `ServerModel` takes one result per connection and cycle; that a failure once seen stays set is left to that input.
- Host name and IP of a table entry: the source never fills them.
- PacketEntities.PacketEntity.Receive: requires a whole message at the head of a nonempty stream, because the source does not wait for the rest of a part.
- PacketEntities.PacketEntity.Send: the message must be 2048 bytes smaller than 2^31, because the source counts buffer sizes in an int.
- Daemons.Daemon.HandleValues: requires that queued values are requests, because the source uses a null response otherwise.
- Daemons.Daemon.Cycle: the same requirement on what is queued and received; for other values the code is not modelled.
