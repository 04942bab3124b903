# dns-analyzer: identity store and packet pipeline, modelled in Dafny

dns-analyzer watches DNS responses on a network interface and attributes each one to the
workload that sent the query. It looks up the packet's IP address in two tables: a VM table
loaded from a dataset file, and a pod table that a Kubernetes pod watch keeps current.
This project models the two sequential parts of the tool and proves properties about them.

- **The identity store** (`main/data.go`) is the `MemDataBuilder` record and its three
  string-to-string maps: `VmInfo` (IP to application), `PodIpMap` (IP to pod name) and
  `PodNameMap` (pod name to IP). The model covers the dataset loader `WithVm`, the seeding
  loop of `WithPod`, the pod-watch handlers `podAddFun`, `podUpdateFun` and `podDeleteFun`,
  and `Analyzer`.
- **The packet pipeline** (`main/main.go`) is the `Capture` record, the stages `udp`, `dns`
  and `ipv4`, the short-circuiting `pipeline`, and `preProcessInterface`.

Files:

- `wrappers.dfy`: `Option`.
- `maps.dfy`: `Assign`, a map written by a sequence of `m[k] = v` assignments, where the last
  write to a key wins.
- `text.dfy`: Go's `strings.Split`, and the lines a `bufio.Reader.ReadString('\n')` loop hands
  out before its first error.
- `pipeline.dfy`: the packet, the `Capture` class, the stages as methods, and their
  specification (`Step`, `Run`).
- `identity_store.dfy`: the `MemDataBuilder` class and the specification of its maps
  (`Tables`, `Seeded`, `PodAdded`, `PodUpdated`, `PodDeleted`, `Lookup`, `Report`).
- `live_capture.dfy`: the per-packet step of `liveCapture`, and end-to-end results.

Each class method is proved against a pure function or predicate of the old state, for example
`State() == PodUpdated(old(State()), newPod)`. The lemmas are stated over those functions.

Modelling choices:

- A packet has three optional layers:
  - UDP, carrying the destination port;
  - DNS, carrying the question names and the answers `(name, dataLength, ip)`;
  - IPv4, carrying the destination address.
- gopacket's layer decoding is not modelled.
- The text `fmt.Sprintf("%s", …)` gives for a port or an IP is a `Format` parameter: two
  arbitrary functions. Every result holds for any choice of them.
- The VM dataset is the file's text, already read. A line with fewer than four space-separated
  fields makes the Go code panic with an index error. `WithVm` then returns the index of that
  line, and the lines before it stay stored.
- The global `config.argInterface` is an input of `PreProcessInterface`. Its new value is an
  output.
- What `Analyzer` prints is returned as an `Attribution`:
  - `Attributed(app, ip, query, answer)` for the "Capture: …" line;
  - `Unknown(ip)` for the "unKnown src ip" line;
  - `Silent` when the IP is found but its application name is empty.

Behaviour of the code that the model keeps as written:

- The DNS stage also matches when every answer has `DataLength == 0` (`main/main.go:105-120`).
  It then records empty strings (`Pipeline.DnsWithoutData`).
- `Record` is the name of the chosen answer, not of the question (`main/main.go:114,118`;
  `Pipeline.DnsRecordsAnswerName`).
- `podDeleteFun` removes only the IP the name table currently holds for the pod. After a pod
  moves from `ip1` to `ip2` and is deleted, `ip1` still resolves to it
  (`IdentityStore.MovedPodKeepsOldIp`).

## Model

| member | source | states |
|---|---|---|
| `Maps.Assign` | main/data.go:55-60 | every written key is present afterwards and no earlier key is lost |
| `Maps.AssignLast` | main/data.go:60 | after a sequence of writes, a key holds the value of the last write to it |
| `Maps.AssignUntouched` | main/data.go:105-106 | a key that no write names keeps its presence and its value |
| `Maps.AssignAppend` | main/data.go:97-107 | running two batches of writes one after the other equals running their concatenation |
| `Text.Split` | main/data.go:55-57 | `strings.Split` gives at least one field, and no field contains the separator |
| `Text.SplitCount` | main/data.go:55-57 | a split has exactly one more field than the line has separators |
| `Text.JoinSplit` | main/data.go:55 | joining the fields of a split gives back the line |
| `Text.SplitJoin` | main/data.go:55-57 | splitting a join of separator-free fields gives back the fields, so `ip x app owner` has fields 0 = ip and 2 = app |
| `Text.SplitFourFields` | main/data.go:55-57 | a line that starts with four separator-free fields, followed by nothing or by a separator, splits into those four fields first |
| `Text.NewlineIndexSpec` | main/data.go:50 | the delimiter search finds the first `'\n'` of the unread input, and finds none only when there is none |
| `Text.ReadStringSpec` | main/data.go:50-53 | one `ReadString('\n')` returns a prefix of the input; it reports an error exactly when no newline is left, and then returns all of it; without an error the prefix ends in its only newline |
| `Text.ReadString` | main/data.go:50 | one read returns a prefix of the unread input, and a non-empty one when no error comes with it |
| `Text.Lines` | main/data.go:49-53 | the read loop hands out at most as many lines as the input has characters, each read consuming at least one |
| `Text.LinesTerminated` | main/data.go:49-53 | every line the read loop hands out ends in its only newline |
| `Text.LinesOfConcat` | main/data.go:49-53 | for newline-terminated lines followed by a tail without newline, the loop hands out exactly those lines, so a last line with no `'\n'` is never loaded |
| `Text.LinesCover` | main/data.go:49-53 | the lines handed out are a prefix of the input, and what is left contains no newline |
| `IdentityStore.FirstMalformed` | main/data.go:55-57 | the first line with fewer than four fields is found; there is none exactly when every line is well formed; all lines before it are well formed |
| `IdentityStore.ParseVmLine` | main/data.go:55-57 | a line yields a record exactly when it has at least three spaces (four fields), otherwise the index panic; fields 0, 2 and 3 contain no space |
| `IdentityStore.FieldsOfLine` | main/data.go:55-57 | a line `a b c d…` of space-free fields, with any further fields after a space, is read as the record (ip `a`, application `c`, owner `d`) |
| `IdentityStore.VmWrites` | main/data.go:55-60 | the loader writes `VmInfo[field 0] = field 2`, one write per line, in order |
| `IdentityStore.VmLastLineWins` | main/data.go:60 | after loading, an IP maps to the application of the last line that names it |
| `IdentityStore.VmOtherIpsKept` | main/data.go:60 | an IP that no line names keeps its VM entry, or stays absent |
| `IdentityStore.MemDataBuilder.Init` | main/data.go:32-37 | all three maps are empty afterwards |
| `IdentityStore.MemDataBuilder.WithVm` | main/data.go:39-64 | the pod maps are unchanged; `Loaded` holds: the result is the index of the first malformed loaded line, if any, and the VM map gets the writes of the loaded lines before it, in order |
| `IdentityStore.Seeded` | main/data.go:97-107 | seeding leaves `VmInfo` alone and never removes a key of either pod table |
| `IdentityStore.SeededWritesEveryPod` | main/data.go:97-107 | after seeding, every listed pod with an IP has its IP in `PodIpMap` and its name in `PodNameMap` |
| `IdentityStore.SeededAll` | main/data.go:72-111 | seeding from any number of listings leaves `VmInfo` alone and never removes a key of either pod table |
| `IdentityStore.MemDataBuilder.SeedPods` | main/data.go:97-107 | the seeding loop leaves the tables equal to `Seeded`: pods without an IP are skipped; every other pod writes `PodIpMap[ip] = name` and `PodNameMap[name] = ip` |
| `IdentityStore.MemDataBuilder.WithPod` | main/data.go:72-111 | the tables are those seeded from each pod listing in turn |
| `IdentityStore.SeededSnoc` | main/data.go:97-107 | seeding one more pod has the same effect as the update handler for that pod |
| `IdentityStore.SeedingIsUpdating` | main/data.go:97-107 | seeding from a listing has the same effect as one update event per listed pod, in order |
| `IdentityStore.SeedingKeepsNoEmptyIpKey` | main/data.go:98-102 | seeding never makes `""` a key of `PodIpMap` |
| `IdentityStore.PodAdded` | main/data.go:134-141 | writes `PodNameMap[name] = ""` exactly when the pod has no IP and changes nothing otherwise; `PodIpMap` and `VmInfo` are never changed |
| `IdentityStore.MemDataBuilder.PodAddFun` | main/data.go:134-141 | changes the maps as `PodAdded` says |
| `IdentityStore.PodUpdated` | main/data.go:143-152 | with a non-empty IP, both directions point at each other; no other key changes; the key sets grow by at most that name and that IP; with an empty IP nothing changes |
| `IdentityStore.MemDataBuilder.PodUpdateFun` | main/data.go:143-152 | changes the maps as `PodUpdated` says for the new pod object |
| `IdentityStore.PodDeleted` | main/data.go:154-162 | the name leaves `PodNameMap`; the IP that map held for it leaves `PodIpMap` (`""` if it held none); all other entries and `VmInfo` stay |
| `IdentityStore.MemDataBuilder.PodDeleteFun` | main/data.go:154-162 | changes the maps as `PodDeleted` says |
| `IdentityStore.Apply` | main/data.go:125-129 | one event goes to its handler: no event touches `VmInfo`, an add leaves `PodIpMap` alone, an update with an IP links that IP and name both ways, a delete removes the name |
| `IdentityStore.ApplyAll` | main/data.go:125-129 | the events are handled in order; `VmInfo` never changes, and without deletes no key leaves `PodIpMap` |
| `IdentityStore.DeleteUnknownKeepsIpTable` | main/data.go:158-159 | deleting a pod with no recorded IP leaves `PodIpMap` unchanged when `""` is not one of its keys |
| `IdentityStore.EventsKeepNoEmptyIpKey` | main/data.go:125-129 | no sequence of add, update and delete events makes `""` a key of `PodIpMap` |
| `IdentityStore.UpdateThenDelete` | main/data.go:147-160 | after an update to `(name, ip)` and a delete of `name`, `ip` is not in `PodIpMap` and `name` is not in `PodNameMap`; the IP is then resolved only if the VM table has it |
| `IdentityStore.MovedPodKeepsOldIp` | main/data.go:147-160 | after updates to `ip1` and then `ip2` and a delete, `ip1` still resolves to the deleted pod |
| `IdentityStore.VmPrecedence` | main/data.go:166-170 | an IP in the VM table resolves to its VM application after any sequence of pod events |
| `IdentityStore.Lookup` | main/data.go:165-174 | an IP in the VM table gives its VM application; an IP only in `PodIpMap` gives its pod name; the lookup fails exactly when neither table has the IP |
| `IdentityStore.Report` | main/data.go:164-178 | the IP is reported unknown exactly when the lookup fails; nothing is printed exactly when the application found is `""`; otherwise the line names that application with the capture's IP, record and answer |
| `IdentityStore.MemDataBuilder.Analyzer` | main/data.go:164-178 | the output is `Report`: the VM table is consulted first, then `PodIpMap`; the IP is unknown only when neither has it; an attribution is printed only for a non-empty application |
| `Pipeline.LastQualifying` | main/main.go:110-116 | finds the last answer with non-zero data length: every later answer has length zero; there is none exactly when all lengths are zero |
| `Pipeline.Step` | main/main.go:86-133 | a stage that does not match leaves the capture unchanged; `udp` writes only `SrcPort`, `dns` only `Record` and `AnswerIp`, `ipv4` only `Src`, and no stage writes `SrcApp` |
| `Pipeline.Capture.constructor` | main/main.go:74-75 | a new capture holds the packet and all its string fields are empty |
| `Pipeline.Call` | main/main.go:140 | calling a stage gives the match result and the capture that `Step` says |
| `Pipeline.Udp` | main/main.go:86-94 | matches exactly when a UDP layer is present and then sets `SrcPort` to the destination port's text |
| `Pipeline.Dns` | main/main.go:96-123 | the answer loop leaves the name and IP of the last answer with data, as `Step` says for the DNS stage |
| `Pipeline.Ipv4` | main/main.go:125-133 | matches exactly when an IPv4 layer is present and then sets `Src` to the destination address's text |
| `Pipeline.DnsTakesLastQualifying` | main/main.go:110-119 | with one question, the capture takes the name and IP of the last answer with data, overriding earlier ones |
| `Pipeline.DnsWithoutData` | main/main.go:105-120 | when no answer carries data, `dns` still matches and sets `Record` and `AnswerIp` to `""` |
| `Pipeline.LastQualifyingSnoc` | main/main.go:110-116 | an appended answer with data becomes the chosen one; an appended answer without data changes nothing |
| `Pipeline.DnsRecordsAnswerName` | main/main.go:114-118 | `Record` is the answer's name, whatever the question's name is |
| `Pipeline.Run` | main/main.go:139-143 | at most all the stages are called; when all match, every stage was called; otherwise at least one was |
| `Pipeline.RunSnoc` | main/main.go:139-143 | after a run in which every stage matched, the next stage runs on the capture that run left |
| `Pipeline.RunIgnoresLaterStages` | main/main.go:140-142 | once a stage has failed, no later stage runs and none changes the capture |
| `Pipeline.RunStopsAtFirstFailure` | main/main.go:139-143 | a run that stops early stopped at a failing stage, and every stage before it matched |
| `Pipeline.StandardRunMatches` | main/main.go:76 | `udp, dns, ipv4` all match exactly on packets with a UDP layer, a DNS layer with one question and at least one answer, and an IPv4 layer |
| `Pipeline.StandardRunThrough` | main/main.go:76 | on such a packet the three stages run in order, each on the capture the previous one left |
| `Pipeline.Capture.Pipeline` | main/main.go:137-145 | the capture is what `Run` gives; a counter incremented at every stage call ends at `Run`'s number of stages called; the result is `false` whatever the stages return |
| `Pipeline.Capture.PipelineIntended` | main/main.go:137-145 | as `Pipeline`, but the result is whether every stage matched |
| `Pipeline.PreProcessInterface` | main/main.go:44-58 | an empty name with at least one device selects the first device; a non-empty name succeeds exactly when some device has that name, and is kept; with no devices the result is `false` |
| `LiveCapture.ProcessPacketIntended` | main/main.go:73-82 | with the intended pipeline, a packet reaches the analyzer exactly when all three stages accept it; the output is `Report` on the capture that `Run` builds |
| `LiveCapture.DatasetLine` | main/data.go:50-57 | the dataset line `ip x app owner\n` is loaded as one line, with fields ip, app and `owner\n` |
| `LiveCapture.LoadVm` | main/data.go:32-64 | `Init` followed by `WithVm` on a dataset without malformed lines leaves exactly the tables `LoadedVm` gives |
| `LiveCapture.VmTableOfLine` | main/data.go:55-60 | loading that line maps `ip` to `app` |
| `LiveCapture.EndToEndAttributed` | main/main.go:73-81 | for that dataset line and a response whose IPv4 destination formats as `ip`: all stages match, and the analyzer attributes the query to `app`, with the answer's name and IP |
| `LiveCapture.EndToEndUnknown` | main/data.go:166-172 | a response for an IP in neither table is reported as unknown under that IP |
| `LiveCapture.SecondAnswerWins` | main/main.go:110-119 | of two answers with data, the second one's IP is recorded |

## Findings

| source | as written | input that shows it | evidently intended | confidence | as-written member | corrected member |
|---|---|---|---|---|---|---|
| main/main.go:138-144 | `pipeline` declares `status` and never assigns it, so it returns `false` whatever the stages return. `liveCapture` therefore never calls `Analyzer`. | The response of `LiveCapture.EndToEndAttributed`: all three stages match it, yet `Pipeline.Capture.Pipeline` returns `false`. | The result is `true` exactly when every stage matched, so matching packets reach the analyzer. | high (not executed) | `Pipeline.Capture.Pipeline` | `Pipeline.Capture.PipelineIntended` (used by `LiveCapture.ProcessPacketIntended`) |

## Left out

- Reading the dataset file (`os.Open`, `bufio.Reader`): `WithVm` takes the file's text. A file that cannot be opened (a panic) is not modelled.
- Directory listing and Kubernetes access in `WithPod` (`filepath.Glob`, `os.Stat`, client construction, `Pods("").List`, and their panics): `WithPod` takes one pod listing per credential file.
- `addWatch` and the informer (main/data.go:116-132) are a foreign library. Only the handlers they call are modelled, plus an ordered event sequence (`ApplyAll`).
- The goroutines `go db.addWatch` and `go db.Analyzer` are not modelled. The code has no locking, and the model is sequential. It makes no claim about concurrent readers or torn updates.
- pcap and gopacket are not modelled: device discovery, `liveCapture`'s packet loop, `offlineCapture` and layer decoding. A packet is a datatype and the devices are a sequence of names.
- The exact text of `fmt.Sprintf("%s", …)` for ports and IPs is left open (the `Format` parameter).
- `getUserInput`, the default paths in `main`, and all diagnostic `fmt.Printf` output are not modelled. `Analyzer`'s output is a return value.
- Panics from failed type assertions on watch objects are not modelled.
- Go's nil maps before `Init` are not modelled: a fresh `MemDataBuilder` already has empty maps.
- The per-packet step of `liveCapture` is modelled only with the intended pipeline. As written, its call to `Analyzer` is unreachable, because `pipeline` never returns `true`.
