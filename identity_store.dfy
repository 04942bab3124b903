/**
 The identity store of main/data.go: the VM table (`VmInfo`, IP to application),
 the pod tables (`PodIpMap`, IP to pod name, and `PodNameMap`, pod name to IP), the
 loaders that fill them at start-up, the pod-watch event handlers that keep them
 current, and `Analyzer`, which attributes a capture's source IP.

 `Tables` and the functions over it state what each operation does to the three maps;
 the class `MemDataBuilder` holds the maps as fields and its methods are proved to
 change them exactly so.
 */
module IdentityStore {
  import opened Wrappers
  import Maps
  import opened Text
  import opened Pipeline

  /** A listed or watched pod: its name and its IP, `""` when none is assigned yet. */
  datatype Pod = Pod(name: string, ip: string)

  datatype Tables = Tables(podIp: map<string, string>, podName: map<string, string>, vm: map<string, string>)

  /** Go's `m[k]` on a `map[string]string`: the zero value `""` for a missing key. */
  function Get(m: map<string, string>, k: string): string
  {
    if k in m then m[k] else ""
  }

  /** No pod handler ever stores the empty IP as a key of the IP-to-pod table. */
  predicate NoEmptyIpKey(t: Tables)
  {
    "" !in t.podIp
  }

  // ---------------------------------------------------------------- VM dataset

  /** The fields of a dataset line that the loader reads: 0 (IP), 2 (application), 3 (owner). */
  datatype VmRecord = VmRecord(ip: string, app: string, owner: string)

  /** A line split at single spaces; fewer than four fields is an index-out-of-range panic. */
  function ParseVmLine(line: string): (r: Option<VmRecord>)
    ensures r.None? <==> multiset(line)[' '] < 3
    ensures r.Some? ==> ' ' !in r.value.ip && ' ' !in r.value.app && ' ' !in r.value.owner
  {
    SplitCount(line, ' ');
    var fields := Split(line, ' ');
    if |fields| < 4 then None else Some(VmRecord(fields[0], fields[2], fields[3]))
  }

  /**
   A line made of the space-free fields `a b c d` and a tail that is empty or starts
   with a space is read as the record of fields 0, 2 and 3.
   */
  lemma FieldsOfLine(a: string, b: string, c: string, d: string, rest: string)
    requires ' ' !in a && ' ' !in b && ' ' !in c && ' ' !in d
    requires rest == [] || rest[0] == ' '
    ensures ParseVmLine(a + " " + b + " " + c + " " + d + rest) == Some(VmRecord(a, c, d))
  {
    var line := a + " " + b + " " + c + " " + d + rest;
    assert line == a + [' '] + (b + [' '] + (c + [' '] + (d + rest)));
    SplitFourFields(a, b, c, d, rest, ' ');
    var parts := Split(line, ' ');
    assert parts[0] == a && parts[2] == c && parts[3] == d by {
      assert parts[..4] == [a, b, c, d];
      assert parts[..4][0] == parts[0] && parts[..4][2] == parts[2] && parts[..4][3] == parts[3];
    }
  }

  predicate WellFormed(lines: seq<string>)
  {
    forall i :: 0 <= i < |lines| ==> ParseVmLine(lines[i]).Some?
  }

  /** Index of the first line on which the loader panics, if any. */
  function FirstMalformed(lines: seq<string>): (r: Option<nat>)
    ensures r.None? <==> WellFormed(lines)
    ensures r.Some? ==> r.value < |lines| && ParseVmLine(lines[r.value]).None?
    ensures r.Some? ==> WellFormed(lines[..r.value])
    decreases |lines|
  {
    if lines == [] then None
    else if ParseVmLine(lines[0]).None? then Some(0)
    else
      match FirstMalformed(lines[1..])
      case None => None
      case Some(k) =>
        assert lines[..k + 1][1..] == lines[1..][..k];
        Some(k + 1)
  }

  /** The writes `VmInfo[ip] = app` the loader performs for well-formed lines. */
  function VmWrites(lines: seq<string>): (w: seq<(string, string)>)
    requires WellFormed(lines)
    ensures |w| == |lines|
    ensures forall i :: 0 <= i < |lines| ==> w[i] == (ParseVmLine(lines[i]).value.ip, ParseVmLine(lines[i]).value.app)
    decreases |lines|
  {
    if lines == [] then []
    else
      var r := ParseVmLine(lines[|lines| - 1]).value;
      VmWrites(lines[..|lines| - 1]) + [(r.ip, r.app)]
  }

  /** The number of lines stored before the loader panics at `malformed` (all of them if it does not). */
  function LoadedCount(lines: seq<string>, malformed: Option<nat>): nat
  {
    match malformed
    case None => |lines|
    case Some(k) => if k <= |lines| then k else |lines|
  }

  /**
   What the loading loop keeps between reads: the lines read so far, `done`, are all
   well formed and stored over `m0` to give `m`, and the unread input `rest` holds
   the remaining lines.
   */
  ghost predicate Loading(data: string, done: seq<string>, rest: string, m0: map<string, string>, m: map<string, string>)
  {
    Lines(data) == done + Lines(rest) && WellFormed(done) && m == Maps.Assign(m0, VmWrites(done))
  }

  /**
   What loading `data` over the VM table `m0` leaves: `malformed` is the first line the
   loader panics on, if any, and `m` holds the writes of every line before it.
   */
  ghost predicate Loaded(data: string, m0: map<string, string>, m: map<string, string>, malformed: Option<nat>)
  {
    var lines := Lines(data);
    && malformed == FirstMalformed(lines)
    && var loaded := lines[..LoadedCount(lines, malformed)];
       WellFormed(loaded) && m == Maps.Assign(m0, VmWrites(loaded))
  }

  lemma LoadStart(data: string, m0: map<string, string>)
    ensures Loading(data, [], data, m0, m0)
  {
    assert VmWrites([]) == [];
    assert [] + Lines(data) == Lines(data);
  }

  lemma LoadStep(data: string, done: seq<string>, rest: string, m0: map<string, string>, m: map<string, string>)
    requires Loading(data, done, rest, m0, m)
    requires !ReadString(rest).err && ParseVmLine(ReadString(rest).line).Some?
    ensures var line := ReadString(rest).line;
            var r := ParseVmLine(line).value;
            Loading(data, done + [line], rest[|line|..], m0, m[r.ip := r.app])
  {
    var line := ReadString(rest).line;
    assert Lines(data) == (done + [line]) + Lines(rest[|line|..]) by {
      LinesNext(rest);
    }
    StoreLine(done, line, m0, m);
  }

  /** Storing one more well-formed line is one more write to the VM table. */
  lemma StoreLine(done: seq<string>, line: string, m0: map<string, string>, m: map<string, string>)
    requires WellFormed(done) && m == Maps.Assign(m0, VmWrites(done)) && ParseVmLine(line).Some?
    ensures var r := ParseVmLine(line).value;
            WellFormed(done + [line]) && m[r.ip := r.app] == Maps.Assign(m0, VmWrites(done + [line]))
  {
    var r := ParseVmLine(line).value;
    VmWritesSnoc(done, line);
    Maps.AssignSnoc(m0, VmWrites(done), (r.ip, r.app));
  }

  lemma LoadPanic(data: string, done: seq<string>, rest: string, m0: map<string, string>, m: map<string, string>)
    requires Loading(data, done, rest, m0, m)
    requires !ReadString(rest).err && ParseVmLine(ReadString(rest).line).None?
    ensures Loaded(data, m0, m, Some(|done|))
  {
    var line := ReadString(rest).line;
    LinesNext(rest);
    var later := Lines(rest[|line|..]);
    assert Lines(data) == done + [line] + later;
    FirstMalformedAt(done, line, later);
  }

  lemma LoadEnd(data: string, done: seq<string>, rest: string, m0: map<string, string>, m: map<string, string>)
    requires Loading(data, done, rest, m0, m)
    requires ReadString(rest).err
    ensures Loaded(data, m0, m, None)
  {
    assert Lines(rest) == [];
    assert Lines(data) == done;
    assert Lines(data)[..|done|] == done;
  }

  lemma VmWritesSnoc(lines: seq<string>, line: string)
    requires WellFormed(lines) && ParseVmLine(line).Some?
    ensures WellFormed(lines + [line])
    ensures var r := ParseVmLine(line).value;
            VmWrites(lines + [line]) == VmWrites(lines) + [(r.ip, r.app)]
  {
    var all := lines + [line];
    assert all[..|all| - 1] == lines && all[|all| - 1] == line;
  }

  lemma FirstMalformedAt(lines: seq<string>, line: string, rest: seq<string>)
    requires WellFormed(lines) && ParseVmLine(line).None?
    ensures FirstMalformed(lines + [line] + rest) == Some(|lines|)
    ensures (lines + [line] + rest)[..|lines|] == lines
  {
    var all := lines + [line] + rest;
    assert all[|lines|] == line;
    assert all[..|lines|] == lines;
  }

  /**
   After loading, a dataset IP maps to the application of the LAST line that names it:
   a later line with the same IP overwrites an earlier one.
   */
  lemma VmLastLineWins(m: map<string, string>, lines: seq<string>, j: nat)
    requires WellFormed(lines) && j < |lines|
    requires forall k :: j < k < |lines| ==> ParseVmLine(lines[k]).value.ip != ParseVmLine(lines[j]).value.ip
    ensures var r := ParseVmLine(lines[j]).value;
            r.ip in Maps.Assign(m, VmWrites(lines)) && Maps.Assign(m, VmWrites(lines))[r.ip] == r.app
  {
    Maps.AssignLast(m, VmWrites(lines), j);
  }

  /** An IP no loaded line names keeps its entry, or its absence, in the VM table. */
  lemma VmOtherIpsKept(m: map<string, string>, lines: seq<string>, ip: string)
    requires WellFormed(lines)
    requires forall k :: 0 <= k < |lines| ==> ParseVmLine(lines[k]).value.ip != ip
    ensures ip in Maps.Assign(m, VmWrites(lines)) <==> ip in m
    ensures ip in m ==> Maps.Assign(m, VmWrites(lines))[ip] == m[ip]
  {
    Maps.AssignUntouched(m, VmWrites(lines), ip);
  }

  // ---------------------------------------------------------------- pod seeding

  /** The writes `PodIpMap[ip] = name` of the seeding loop: pods without an IP are skipped. */
  function IpWrites(pods: seq<Pod>): seq<(string, string)>
    decreases |pods|
  {
    if pods == [] then []
    else
      var p := pods[|pods| - 1];
      IpWrites(pods[..|pods| - 1]) + (if p.ip == "" then [] else [(p.ip, p.name)])
  }

  /** The writes `PodNameMap[name] = ip` of the seeding loop. */
  function NameWrites(pods: seq<Pod>): seq<(string, string)>
    decreases |pods|
  {
    if pods == [] then []
    else
      var p := pods[|pods| - 1];
      NameWrites(pods[..|pods| - 1]) + (if p.ip == "" then [] else [(p.name, p.ip)])
  }

  /** The tables after the seeding loop has run over one pod listing. */
  function Seeded(t: Tables, pods: seq<Pod>): (r: Tables)
    ensures r.vm == t.vm
    ensures t.podIp.Keys <= r.podIp.Keys && t.podName.Keys <= r.podName.Keys
  {
    Tables(Maps.Assign(t.podIp, IpWrites(pods)), Maps.Assign(t.podName, NameWrites(pods)), t.vm)
  }

  /** The tables after seeding from each listing in turn. */
  function SeededAll(t: Tables, listings: seq<seq<Pod>>): (r: Tables)
    ensures r.vm == t.vm
    ensures t.podIp.Keys <= r.podIp.Keys && t.podName.Keys <= r.podName.Keys
    decreases |listings|
  {
    if listings == [] then t
    else Seeded(SeededAll(t, listings[..|listings| - 1]), listings[|listings| - 1])
  }

  /** Every pod with an IP is in both tables after seeding. */
  lemma {:induction false} SeededWritesEveryPod(t: Tables, pods: seq<Pod>)
    ensures forall i :: 0 <= i < |pods| && pods[i].ip != "" ==>
              pods[i].ip in Seeded(t, pods).podIp && pods[i].name in Seeded(t, pods).podName
    decreases |pods|
  {
    if pods != [] {
      var front := pods[..|pods| - 1];
      var p := pods[|pods| - 1];
      SeededWritesEveryPod(t, front);
      assert pods == front + [p];
      SeededSnoc(t, front, p);
      forall i | 0 <= i < |pods| - 1 && pods[i].ip != ""
        ensures pods[i].ip in Seeded(t, pods).podIp && pods[i].name in Seeded(t, pods).podName
      {
        assert pods[i] == front[i];
      }
    }
  }

  lemma {:induction false} IpWritesHaveIps(pods: seq<Pod>)
    ensures forall i :: 0 <= i < |IpWrites(pods)| ==> IpWrites(pods)[i].0 != ""
    decreases |pods|
  {
    if pods != [] {
      IpWritesHaveIps(pods[..|pods| - 1]);
    }
  }

  // ---------------------------------------------------------------- pod watch handlers

  /** `podAddFun`: a pod without an IP is recorded under its name with the IP `""`. */
  function PodAdded(t: Tables, p: Pod): (r: Tables)
    ensures r.podIp == t.podIp && r.vm == t.vm
    ensures p.ip != "" ==> r == t
    ensures p.ip == "" ==> p.name in r.podName && r.podName[p.name] == ""
    ensures r.podName.Keys == t.podName.Keys + (if p.ip == "" then {p.name} else {})
    ensures forall n :: n in t.podName && n != p.name ==> r.podName[n] == t.podName[n]
  {
    if p.ip == "" then t.(podName := t.podName[p.name := ""]) else t
  }

  /**
   `podUpdateFun` with the new state of the pod: a non-empty IP is written in both
   directions; an earlier IP of the pod stays behind as a key of the IP table.
   */
  function PodUpdated(t: Tables, p: Pod): (r: Tables)
    ensures r.vm == t.vm
    ensures p.ip == "" ==> r == t
    ensures p.ip != "" ==> p.name in r.podName && r.podName[p.name] == p.ip
    ensures p.ip != "" ==> p.ip in r.podIp && r.podIp[p.ip] == p.name
    ensures r.podName.Keys == t.podName.Keys + (if p.ip == "" then {} else {p.name})
    ensures r.podIp.Keys == t.podIp.Keys + (if p.ip == "" then {} else {p.ip})
    ensures forall n :: n in t.podName && n != p.name ==> r.podName[n] == t.podName[n]
    ensures forall i :: i in t.podIp && i != p.ip ==> r.podIp[i] == t.podIp[i]
  {
    if p.ip == "" then t else Tables(t.podIp[p.ip := p.name], t.podName[p.name := p.ip], t.vm)
  }

  /**
   `podDeleteFun`: the name goes from the name table, and the IP the name table held
   for it (`""` if it held none) goes from the IP table.
   */
  function PodDeleted(t: Tables, name: string): (r: Tables)
    ensures r.vm == t.vm
    ensures r.podName.Keys == t.podName.Keys - {name}
    ensures r.podIp.Keys == t.podIp.Keys - {Get(t.podName, name)}
    ensures forall n :: n in r.podName ==> r.podName[n] == t.podName[n]
    ensures forall i :: i in r.podIp ==> r.podIp[i] == t.podIp[i]
  {
    Tables(t.podIp - {Get(t.podName, name)}, t.podName - {name}, t.vm)
  }

  /** The events the pod informer delivers to the handlers, in delivery order. */
  datatype PodEvent = Added(pod: Pod) | Updated(pod: Pod) | Deleted(name: string)

  /** One event delivered to its handler. */
  function Apply(t: Tables, e: PodEvent): (r: Tables)
    ensures r.vm == t.vm
    ensures e.Added? ==> r.podIp == t.podIp
    ensures e.Updated? && e.pod.ip != "" ==> Get(r.podIp, e.pod.ip) == e.pod.name && Get(r.podName, e.pod.name) == e.pod.ip
    ensures e.Deleted? ==> e.name !in r.podName
  {
    match e
    case Added(p) => PodAdded(t, p)
    case Updated(p) => PodUpdated(t, p)
    case Deleted(n) => PodDeleted(t, n)
  }

  /** The events delivered in order; no pod event touches the VM table, and only deletes drop IPs. */
  function ApplyAll(t: Tables, events: seq<PodEvent>): (r: Tables)
    ensures r.vm == t.vm
    ensures (forall i :: 0 <= i < |events| ==> !events[i].Deleted?) ==> t.podIp.Keys <= r.podIp.Keys
    decreases |events|
  {
    if events == [] then t else ApplyAll(Apply(t, events[0]), events[1..])
  }

  /** Seeding one more pod is the update handler applied to that pod. */
  lemma SeededSnoc(t: Tables, pods: seq<Pod>, p: Pod)
    ensures Seeded(t, pods + [p]) == PodUpdated(Seeded(t, pods), p)
  {
    var all := pods + [p];
    assert all[..|all| - 1] == pods && all[|all| - 1] == p;
    if p.ip != "" {
      var w := IpWrites(pods) + [(p.ip, p.name)];
      assert w[..|w| - 1] == IpWrites(pods);
      var v := NameWrites(pods) + [(p.name, p.ip)];
      assert v[..|v| - 1] == NameWrites(pods);
    } else {
      assert IpWrites(all) == IpWrites(pods) + [] == IpWrites(pods);
      assert NameWrites(all) == NameWrites(pods) + [] == NameWrites(pods);
    }
  }

  /** Seeding from a listing stores exactly what one update event per listed pod would. */
  lemma {:induction false} SeedingIsUpdating(t: Tables, pods: seq<Pod>)
    ensures Seeded(t, pods) == ApplyAll(t, UpdateEvents(pods))
    decreases |pods|
  {
    if pods != [] {
      var front := pods[..|pods| - 1];
      var p := pods[|pods| - 1];
      SeedingIsUpdating(t, front);
      assert UpdateEvents(pods) == UpdateEvents(front) + [Updated(p)];
      ApplyAllAppend(t, UpdateEvents(front), [Updated(p)]);
      assert [Updated(p)][1..] == [];
      assert pods == front + [p];
      SeededSnoc(t, front, p);
    } else {
      assert Seeded(t, []) == t;
    }
  }

  function UpdateEvents(pods: seq<Pod>): (es: seq<PodEvent>)
    ensures |es| == |pods|
    ensures forall i :: 0 <= i < |pods| ==> es[i] == Updated(pods[i])
    decreases |pods|
  {
    if pods == [] then [] else UpdateEvents(pods[..|pods| - 1]) + [Updated(pods[|pods| - 1])]
  }

  lemma {:induction false} ApplyAllAppend(t: Tables, a: seq<PodEvent>, b: seq<PodEvent>)
    ensures ApplyAll(t, a + b) == ApplyAll(ApplyAll(t, a), b)
    decreases |a|
  {
    if a != [] {
      assert (a + b)[0] == a[0];
      assert (a + b)[1..] == a[1..] + b;
      ApplyAllAppend(Apply(t, a[0]), a[1..], b);
    } else {
      assert a + b == b;
    }
  }

  /** No sequence of pod events puts the empty IP into the IP table. */
  lemma {:induction false} EventsKeepNoEmptyIpKey(t: Tables, events: seq<PodEvent>)
    requires NoEmptyIpKey(t)
    ensures NoEmptyIpKey(ApplyAll(t, events))
    decreases |events|
  {
    if events != [] {
      EventsKeepNoEmptyIpKey(Apply(t, events[0]), events[1..]);
    }
  }

  /** Seeding never puts the empty IP into the IP table either. */
  lemma SeedingKeepsNoEmptyIpKey(t: Tables, pods: seq<Pod>)
    requires NoEmptyIpKey(t)
    ensures NoEmptyIpKey(Seeded(t, pods))
  {
    IpWritesHaveIps(pods);
    Maps.AssignUntouched(t.podIp, IpWrites(pods), "");
  }

  /** Removing a pod the store never saw an IP for leaves the IP table as it was. */
  lemma DeleteUnknownKeepsIpTable(t: Tables, name: string)
    requires NoEmptyIpKey(t)
    requires Get(t.podName, name) == ""
    ensures PodDeleted(t, name).podIp == t.podIp
  {
  }

  // ---------------------------------------------------------------- lookup

  /** The application for an IP: the VM table first, then the pod table. */
  function Lookup(t: Tables, ip: string): (r: Option<string>)
    ensures r.None? <==> ip !in t.vm && ip !in t.podIp
    ensures ip in t.vm ==> r == Some(t.vm[ip])
    ensures ip !in t.vm && ip in t.podIp ==> r == Some(t.podIp[ip])
  {
    if ip in t.vm then Some(t.vm[ip])
    else if ip in t.podIp then Some(t.podIp[ip])
    else None
  }

  /** What `Analyzer` emits for a capture. */
  datatype Attribution =
    | Attributed(app: string, ip: string, query: string, answer: string)  // "Capture: app … ip … query … answered by …"
    | Unknown(ip: string)                                               // "unKnown src ip …"
    | Silent                                                            // found, but with an empty application name

  function Report(t: Tables, c: CaptureValue): (r: Attribution)
    ensures r.Unknown? <==> Lookup(t, c.src).None?
    ensures r.Unknown? ==> r.ip == c.src
    ensures r.Silent? <==> Lookup(t, c.src) == Some("")
    ensures r.Attributed? ==> r == Attributed(Lookup(t, c.src).value, c.src, c.record, c.answerIp) && r.app != ""
  {
    match Lookup(t, c.src)
    case None => Unknown(c.src)
    case Some(app) => if app == "" then Silent else Attributed(app, c.src, c.record, c.answerIp)
  }

  /** A VM entry stays authoritative for its IP whatever the pod watch delivers. */
  lemma {:induction false} VmPrecedence(t: Tables, events: seq<PodEvent>, ip: string)
    requires ip in t.vm
    ensures Lookup(ApplyAll(t, events), ip) == Some(t.vm[ip])
    decreases |events|
  {
    if events != [] {
      VmPrecedence(Apply(t, events[0]), events[1..], ip);
    }
  }

  /** Updating a pod's IP and then deleting the pod leaves neither direction of the pair behind. */
  lemma UpdateThenDelete(t: Tables, name: string, ip: string)
    requires ip != ""
    ensures var r := PodDeleted(PodUpdated(t, Pod(name, ip)), name);
            ip !in r.podIp && name !in r.podName && r.vm == t.vm
    ensures ip !in t.vm ==> Lookup(PodDeleted(PodUpdated(t, Pod(name, ip)), name), ip) == None
  {
  }

  /**
   A pod that moves from `ip1` to `ip2` and is then deleted still owns `ip1`: the
   update handler never removes the previous IP key.
   */
  lemma MovedPodKeepsOldIp(t: Tables, name: string, ip1: string, ip2: string)
    requires ip1 != "" && ip2 != "" && ip1 != ip2 && ip1 !in t.vm
    ensures var r := PodDeleted(PodUpdated(PodUpdated(t, Pod(name, ip1)), Pod(name, ip2)), name);
            Lookup(r, ip1) == Some(name) && name !in r.podName
  {
  }

  // ---------------------------------------------------------------- the store

  class MemDataBuilder {
    var podIpMap: map<string, string>
    var podNameMap: map<string, string>
    var vmInfo: map<string, string>

    function State(): Tables
      reads this
    {
      Tables(podIpMap, podNameMap, vmInfo)
    }

    /** `Init`: all three maps start empty. */
    method Init()
      modifies this
      ensures podIpMap == map[] && podNameMap == map[] && vmInfo == map[]
      ensures NoEmptyIpKey(State())
    {
      podIpMap := map[];
      podNameMap := map[];
      vmInfo := map[];
    }

    /**
     `WithVm` on the already-read dataset `data`. Lines are read with their newline;
     the loop ends at the first read that reports EOF. A line with fewer than four
     fields panics: `malformed` is then its index, and the lines before it are stored.
     */
    method WithVm(data: string) returns (malformed: Option<nat>)
      modifies this
      ensures podIpMap == old(podIpMap) && podNameMap == old(podNameMap)
      ensures Loaded(data, old(vmInfo), vmInfo, malformed)
    {
      var rest := data;
      ghost var done: seq<string> := [];
      var n := 0;
      LoadStart(data, vmInfo);
      while true
        invariant n == |done| && Loading(data, done, rest, old(vmInfo), vmInfo)
        invariant podIpMap == old(podIpMap) && podNameMap == old(podNameMap)
        decreases |rest|
      {
        var read := ReadString(rest);
        if read.err {
          LoadEnd(data, done, rest, old(vmInfo), vmInfo);
          return None;
        }
        var parsed := ParseVmLine(read.line);
        if parsed.None? {
          LoadPanic(data, done, rest, old(vmInfo), vmInfo);
          return Some(n);
        }
        var ip, app := parsed.value.ip, parsed.value.app;
        LoadStep(data, done, rest, old(vmInfo), vmInfo);
        vmInfo := vmInfo[ip := app];
        done := done + [read.line];
        rest := rest[|read.line|..];
        n := n + 1;
      }
    }

    /** The seeding loop of `WithPod` over one pod listing. */
    method SeedPods(pods: seq<Pod>)
      modifies this
      ensures State() == Seeded(old(State()), pods)
    {
      for i := 0 to |pods|
        invariant State() == Seeded(old(State()), pods[..i])
      {
        var p := pods[i];
        assert pods[..i + 1] == pods[..i] + [p];
        SeededSnoc(old(State()), pods[..i], p);
        if p.ip == "" {
          continue;
        }
        podIpMap := podIpMap[p.ip := p.name];
        podNameMap := podNameMap[p.name := p.ip];
      }
      assert pods[..|pods|] == pods;
    }

    /** `WithPod` given the pod listing obtained for each credential file. */
    method WithPod(listings: seq<seq<Pod>>)
      modifies this
      ensures State() == SeededAll(old(State()), listings)
    {
      for i := 0 to |listings|
        invariant State() == SeededAll(old(State()), listings[..i])
      {
        assert listings[..i + 1][..i] == listings[..i];
        SeedPods(listings[i]);
      }
      assert listings[..|listings|] == listings;
    }

    method PodAddFun(pod: Pod)
      modifies this
      ensures State() == PodAdded(old(State()), pod)
    {
      if pod.ip == "" {
        podNameMap := podNameMap[pod.name := ""];
      }
    }

    /** `podUpdateFun`; only the new object is used. */
    method PodUpdateFun(oldPod: Pod, newPod: Pod)
      modifies this
      ensures State() == PodUpdated(old(State()), newPod)
    {
      if newPod.ip != "" {
        podNameMap := podNameMap[newPod.name := newPod.ip];
        podIpMap := podIpMap[newPod.ip := newPod.name];
      }
    }

    method PodDeleteFun(name: string)
      modifies this
      ensures State() == PodDeleted(old(State()), name)
    {
      var podIp := if name in podNameMap then podNameMap[name] else "";
      podIpMap := podIpMap - {podIp};
      podNameMap := podNameMap - {name};
    }

    /** `Analyzer`: resolves `cap.Src`, VM table first, and says what it prints. */
    method Analyzer(cap: Capture) returns (report: Attribution)
      ensures report == Report(State(), cap.Value())
    {
      var app := "";
      var unknown := false;
      if cap.src in vmInfo {
        app := vmInfo[cap.src];
      } else if cap.src in podIpMap {
        app := podIpMap[cap.src];
      } else {
        unknown := true;
      }
      if app != "" {
        report := Attributed(app, cap.src, cap.record, cap.answerIp);
      } else if unknown {
        report := Unknown(cap.src);
      } else {
        report := Silent;
      }
    }
  }
}
