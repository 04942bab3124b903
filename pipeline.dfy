/**
 The packet side of main/main.go: the `Capture` record, the three extraction
 stages `udp`, `dns` and `ipv4`, the short-circuiting `pipeline`, and the choice of
 capture device in `preProcessInterface`.

 A packet is abstracted to the three layers the stages test for; a missing layer
 is `None`. The text `fmt.Sprintf("%s", …)` produces for a port or an IP address
 is left open: it is supplied as a `Format`, and every result proved here holds
 for any such pair of functions.
 */
module Pipeline {
  import opened Wrappers

  newtype uint16 = x: int | 0 <= x < 0x1_0000

  /** An IP address as gopacket holds it (`net.IP`, a byte slice). */
  type IpAddr = seq<bv8>

  datatype UdpLayer = UdpLayer(dstPort: uint16)
  datatype DnsAnswer = DnsAnswer(name: string, dataLength: uint16, ip: IpAddr)
  /** The names of the questions, and the answer records in packet order. */
  datatype DnsLayer = DnsLayer(questions: seq<string>, answers: seq<DnsAnswer>)
  datatype Ipv4Layer = Ipv4Layer(dstIp: IpAddr)
  datatype Packet = Packet(udp: Option<UdpLayer>, dns: Option<DnsLayer>, ipv4: Option<Ipv4Layer>)

  /** `fmt.Sprintf("%s", …)` of a UDP port and of an IP address. */
  datatype Format = Format(port: uint16 -> string, ip: IpAddr -> string)

  /** The string fields of a `Capture`, as a value. */
  datatype CaptureValue = CaptureValue(srcApp: string, src: string, srcPort: string, record: string, answerIp: string)

  const EmptyCapture := CaptureValue("", "", "", "", "")

  /** The capture record one packet is turned into; the stages write its fields in place. */
  class Capture {
    var srcApp: string
    var src: string
    var srcPort: string
    var record: string
    var answerIp: string
    var packet: Packet

    /** `got := &Capture{}; got.Packet = &packet` */
    constructor (packet: Packet)
      ensures Value() == EmptyCapture && this.packet == packet
    {
      srcApp, src, srcPort, record, answerIp := "", "", "", "", "";
      this.packet := packet;
    }

    function Value(): CaptureValue
      reads this
    {
      CaptureValue(srcApp, src, srcPort, record, answerIp)
    }

    /**
     `got.pipeline(fns...)` as written: the stages run in order, the loop stops at the
     first stage that reports no match, and the result is the never-assigned `status`.
     `called` is incremented at every stage call.
     */
    method Pipeline(stages: seq<Stage>, f: Format) returns (status: bool, ghost called: nat)
      modifies this`srcPort, this`record, this`answerIp, this`src
      ensures !status
      ensures Value() == Run(stages, f, packet, old(Value())).value
      ensures called == Run(stages, f, packet, old(Value())).called
    {
      ghost var start := Value();
      status := false;
      called := 0;
      var i := 0;
      while i < |stages|
        invariant 0 <= i <= |stages| && called == i
        invariant Run(stages[..i], f, packet, start) == RunResult(Value(), called, true)
      {
        RunSnoc(stages[..i], stages[i], f, packet, start);
        assert stages[..i] + [stages[i]] == stages[..i + 1];
        var ok := Call(stages[i], this, f);
        called := called + 1;
        if !ok {
          RunIgnoresLaterStages(stages[..i + 1], stages[i + 1..], f, packet, start);
          assert stages[..i + 1] + stages[i + 1..] == stages;
          return;
        }
        i := i + 1;
      }
      assert stages[..i] == stages;
    }

    /** The pipeline as evidently intended: it reports whether every stage matched. */
    method PipelineIntended(stages: seq<Stage>, f: Format) returns (status: bool, ghost called: nat)
      modifies this`srcPort, this`record, this`answerIp, this`src
      ensures status == Run(stages, f, packet, old(Value())).allMatched
      ensures Value() == Run(stages, f, packet, old(Value())).value
      ensures called == Run(stages, f, packet, old(Value())).called
    {
      ghost var start := Value();
      called := 0;
      var i := 0;
      while i < |stages|
        invariant 0 <= i <= |stages| && called == i
        invariant Run(stages[..i], f, packet, start) == RunResult(Value(), called, true)
      {
        RunSnoc(stages[..i], stages[i], f, packet, start);
        assert stages[..i] + [stages[i]] == stages[..i + 1];
        var ok := Call(stages[i], this, f);
        called := called + 1;
        if !ok {
          RunIgnoresLaterStages(stages[..i + 1], stages[i + 1..], f, packet, start);
          assert stages[..i + 1] + stages[i + 1..] == stages;
          return false, called;
        }
        i := i + 1;
      }
      assert stages[..i] == stages;
      status := true;
    }
  }

  /** The stage functions that can be handed to `pipeline`. */
  datatype Stage = UdpStage | DnsStage | Ipv4Stage

  /** What one stage reports, and the capture it leaves. */
  datatype StepResult = StepResult(matched: bool, value: CaptureValue)

  /** Index of the last answer with a non-zero data length, if any. */
  function LastQualifying(answers: seq<DnsAnswer>): (r: Option<nat>)
    ensures r.Some? ==> r.value < |answers| && answers[r.value].dataLength != 0
    ensures r.Some? ==> forall k :: r.value < k < |answers| ==> answers[k].dataLength == 0
    ensures r.None? ==> forall k :: 0 <= k < |answers| ==> answers[k].dataLength == 0
    decreases |answers|
  {
    if answers == [] then None
    else if answers[|answers| - 1].dataLength != 0 then Some(|answers| - 1)
    else LastQualifying(answers[..|answers| - 1])
  }

  /** The effect of one stage on a capture of the packet `p`. */
  function Step(s: Stage, f: Format, p: Packet, c: CaptureValue): (r: StepResult)
    ensures !r.matched ==> r.value == c
    ensures r.value.srcApp == c.srcApp
    ensures s != Ipv4Stage ==> r.value.src == c.src
    ensures s != UdpStage ==> r.value.srcPort == c.srcPort
    ensures s != DnsStage ==> r.value.record == c.record && r.value.answerIp == c.answerIp
  {
    match s
    case UdpStage =>
      if p.udp.None? then StepResult(false, c)
      else StepResult(true, c.(srcPort := f.port(p.udp.value.dstPort)))
    case DnsStage =>
      if p.dns.None? || |p.dns.value.questions| != 1 || |p.dns.value.answers| == 0 then StepResult(false, c)
      else
        var answers := p.dns.value.answers;
        (match LastQualifying(answers)
         case None => StepResult(true, c.(record := "", answerIp := ""))
         case Some(i) => StepResult(true, c.(record := answers[i].name, answerIp := f.ip(answers[i].ip))))
    case Ipv4Stage =>
      if p.ipv4.None? then StepResult(false, c)
      else StepResult(true, c.(src := f.ip(p.ipv4.value.dstIp)))
  }

  /** `udp`: records the UDP destination port as `SrcPort`. */
  method Udp(got: Capture, f: Format) returns (ok: bool)
    modifies got`srcPort
    ensures StepResult(ok, got.Value()) == Step(UdpStage, f, got.packet, old(got.Value()))
  {
    var packet := got.packet;
    if packet.udp.Some? {
      got.srcPort := f.port(packet.udp.value.dstPort);
      return true;
    }
    return false;
  }

  /**
   `dns`: with exactly one question and at least one answer, records the name and the
   address of the last answer whose data length is not zero (empty strings if none is).
   */
  method Dns(got: Capture, f: Format) returns (ok: bool)
    modifies got`record, got`answerIp
    ensures StepResult(ok, got.Value()) == Step(DnsStage, f, got.packet, old(got.Value()))
  {
    var packet := got.packet;
    if packet.dns.Some? {
      var questions := packet.dns.value.questions;
      if |questions| != 1 {
        return false;
      }
      var answers := packet.dns.value.answers;
      if |answers| == 0 {
        return false;
      }
      var answer := "";
      var answerIp := "";
      for i := 0 to |answers|
        invariant match LastQualifying(answers[..i])
                  case None => answer == "" && answerIp == ""
                  case Some(j) => answer == answers[j].name && answerIp == f.ip(answers[j].ip)
      {
        assert answers[..i + 1][..i] == answers[..i];
        if answers[i].dataLength == 0 {
          continue;
        }
        answer := answers[i].name;
        answerIp := f.ip(answers[i].ip);
      }
      assert answers[..|answers|] == answers;
      got.record := answer;
      got.answerIp := answerIp;
      return true;
    }
    return false;
  }

  /** `ipv4`: records the IPv4 destination address as `Src`. */
  method Ipv4(got: Capture, f: Format) returns (ok: bool)
    modifies got`src
    ensures StepResult(ok, got.Value()) == Step(Ipv4Stage, f, got.packet, old(got.Value()))
  {
    var packet := got.packet;
    if packet.ipv4.Some? {
      got.src := f.ip(packet.ipv4.value.dstIp);
      return true;
    }
    return false;
  }

  /** The call `pipeFns[i](got)`. */
  method Call(s: Stage, got: Capture, f: Format) returns (ok: bool)
    modifies got`srcPort, got`record, got`answerIp, got`src
    ensures StepResult(ok, got.Value()) == Step(s, f, got.packet, old(got.Value()))
  {
    match s
    case UdpStage => ok := Udp(got, f);
    case DnsStage => ok := Dns(got, f);
    case Ipv4Stage => ok := Ipv4(got, f);
  }

  /** The capture after a run of stages, how many stages were called, and whether all matched. */
  datatype RunResult = RunResult(value: CaptureValue, called: nat, allMatched: bool)

  /** Running `stages` left to right, stopping after the first one that does not match. */
  function Run(stages: seq<Stage>, f: Format, p: Packet, c: CaptureValue): (r: RunResult)
    ensures r.called <= |stages|
    ensures r.allMatched ==> r.called == |stages|
    ensures !r.allMatched ==> r.called >= 1
    decreases |stages|
  {
    if stages == [] then RunResult(c, 0, true)
    else
      var step := Step(stages[0], f, p, c);
      if !step.matched then RunResult(step.value, 1, false)
      else
        var rest := Run(stages[1..], f, p, step.value);
        RunResult(rest.value, rest.called + 1, rest.allMatched)
  }

  /** A run that completed can be extended by one more stage. */
  lemma {:induction false} RunSnoc(stages: seq<Stage>, s: Stage, f: Format, p: Packet, c: CaptureValue)
    requires Run(stages, f, p, c).allMatched
    ensures var before := Run(stages, f, p, c);
            var step := Step(s, f, p, before.value);
            Run(stages + [s], f, p, c) == RunResult(step.value, |stages| + 1, step.matched)
    decreases |stages|
  {
    if stages == [] {
      assert [s][1..] == [];
    } else {
      var step := Step(stages[0], f, p, c);
      assert (stages + [s])[1..] == stages[1..] + [s];
      RunSnoc(stages[1..], s, f, p, step.value);
    }
  }

  /** Once a stage has failed, the stages after it are never called. */
  lemma {:induction false} RunIgnoresLaterStages(stages: seq<Stage>, later: seq<Stage>, f: Format, p: Packet, c: CaptureValue)
    requires !Run(stages, f, p, c).allMatched
    ensures Run(stages + later, f, p, c) == Run(stages, f, p, c)
    decreases |stages|
  {
    var step := Step(stages[0], f, p, c);
    assert (stages + later)[0] == stages[0];
    if step.matched {
      assert (stages + later)[1..] == stages[1..] + later;
      RunIgnoresLaterStages(stages[1..], later, f, p, step.value);
    }
  }

  /** A run that did not complete stopped at a stage that failed after all earlier ones matched. */
  lemma {:induction false} RunStopsAtFirstFailure(stages: seq<Stage>, f: Format, p: Packet, c: CaptureValue)
    requires !Run(stages, f, p, c).allMatched
    ensures var k := Run(stages, f, p, c).called - 1;
            var before := Run(stages[..k], f, p, c);
            before.allMatched && !Step(stages[k], f, p, before.value).matched
    decreases |stages|
  {
    var step := Step(stages[0], f, p, c);
    if step.matched {
      var tail := stages[1..];
      RunStopsAtFirstFailure(tail, f, p, step.value);
      var k := Run(tail, f, p, step.value).called - 1;
      assert stages[..k + 1][1..] == tail[..k];
      assert stages[..k + 1][0] == stages[0];
      assert stages[k + 1] == tail[k];
    } else {
      assert stages[..0] == [];
    }
  }

  /** The stages `main` hands to `pipeline`: `udp, dns, ipv4`. */
  const DnsResponseStages: seq<Stage> := [UdpStage, DnsStage, Ipv4Stage]

  /** A packet the three stages accept. */
  predicate Applicable(p: Packet)
  {
    && p.udp.Some?
    && p.dns.Some? && |p.dns.value.questions| == 1 && |p.dns.value.answers| > 0
    && p.ipv4.Some?
  }

  /** On an applicable packet the three stages all run, each on the capture the previous one left. */
  lemma StandardRunThrough(f: Format, p: Packet, c: CaptureValue)
    requires Applicable(p)
    ensures var v1 := Step(UdpStage, f, p, c).value;
            var v2 := Step(DnsStage, f, p, v1).value;
            Run(DnsResponseStages, f, p, c) == RunResult(Step(Ipv4Stage, f, p, v2).value, 3, true)
  {
    var s := DnsResponseStages;
    assert s[1..] == [DnsStage, Ipv4Stage];
    assert s[1..][1..] == [Ipv4Stage];
    assert s[1..][1..][1..] == [];
  }

  /** The three stages all match exactly on the packets that carry the layers they test. */
  lemma StandardRunMatches(f: Format, p: Packet, c: CaptureValue)
    ensures Run(DnsResponseStages, f, p, c).allMatched <==> Applicable(p)
  {
    var s := DnsResponseStages;
    assert s[1..] == [DnsStage, Ipv4Stage];
    assert s[1..][1..] == [Ipv4Stage];
    assert s[1..][1..][1..] == [];
  }

  /**
   A DNS layer with one question and answers: the capture takes the name and address of
   the last answer with a non-zero data length, whatever qualifying answers precede it.
   */
  lemma DnsTakesLastQualifying(f: Format, p: Packet, c: CaptureValue, j: nat)
    requires p.dns.Some? && |p.dns.value.questions| == 1
    requires j < |p.dns.value.answers| && p.dns.value.answers[j].dataLength != 0
    requires forall k :: j < k < |p.dns.value.answers| ==> p.dns.value.answers[k].dataLength == 0
    ensures var r := Step(DnsStage, f, p, c);
            var a := p.dns.value.answers[j];
            r.matched && r.value == c.(record := a.name, answerIp := f.ip(a.ip))
  {
    var q := LastQualifying(p.dns.value.answers);
    assert q.Some? && q.value == j;
  }

  /** With no answer carrying data, the DNS stage still matches and blanks record and answer. */
  lemma DnsWithoutData(f: Format, p: Packet, c: CaptureValue)
    requires p.dns.Some? && |p.dns.value.questions| == 1 && |p.dns.value.answers| > 0
    requires forall k :: 0 <= k < |p.dns.value.answers| ==> p.dns.value.answers[k].dataLength == 0
    ensures Step(DnsStage, f, p, c) == StepResult(true, c.(record := "", answerIp := ""))
  {
    assert LastQualifying(p.dns.value.answers).None?;
  }

  /** Appending an answer with data makes it the one recorded; appending one without data changes nothing. */
  lemma {:induction false} LastQualifyingSnoc(answers: seq<DnsAnswer>, a: DnsAnswer)
    ensures LastQualifying(answers + [a]) == if a.dataLength != 0 then Some(|answers|) else LastQualifying(answers)
  {
    var all := answers + [a];
    assert all[..|all| - 1] == answers;
  }

  /**
   The record written is the answer's name, not the question's: with question `q` and a
   single answer named `n`, the capture records `n`.
   */
  lemma DnsRecordsAnswerName(f: Format, q: string, n: string, len: uint16, ip: IpAddr, c: CaptureValue)
    requires len != 0
    ensures var p := Packet(None, Some(DnsLayer([q], [DnsAnswer(n, len, ip)])), None);
            Step(DnsStage, f, p, c).value.record == n
  {
    var answers := [DnsAnswer(n, len, ip)];
    assert LastQualifying(answers) == Some(0);
  }

  /**
   `preProcessInterface` over the names of the capture devices found. The global
   `config.argInterface` is passed in as `argInterface` and its new value returned as
   `chosen`: an empty name selects the first device; otherwise the name must be one of
   the devices.
   */
  method PreProcessInterface(argInterface: string, devices: seq<string>) returns (found: bool, chosen: string)
    ensures found <==> |devices| > 0 && (argInterface == "" || argInterface in devices)
    ensures chosen == if argInterface == "" && |devices| > 0 then devices[0] else argInterface
  {
    chosen := argInterface;
    for i := 0 to |devices|
      invariant chosen == argInterface
      invariant i > 0 ==> argInterface != ""
      invariant forall j :: 0 <= j < i ==> devices[j] != argInterface
    {
      if |chosen| == 0 {
        chosen := devices[i];
        return true, chosen;
      }
      if devices[i] == chosen {
        return true, chosen;
      }
    }
    return false, chosen;
  }
}
