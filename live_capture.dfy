/**
 The per-packet step of `liveCapture` in main/main.go: a fresh `Capture` for the
 packet, the pipeline `udp, dns, ipv4`, and the analyzer when the pipeline reports
 success; together with the end-to-end consequences worked through on the model.
 */
module LiveCapture {
  import opened Wrappers
  import Maps
  import opened Text
  import opened Pipeline
  import opened IdentityStore

  /** The step with the intended pipeline: exactly the packets the three stages accept are analysed. */
  method ProcessPacketIntended(db: MemDataBuilder, packet: Packet, f: Format) returns (report: Option<Attribution>)
    ensures report.Some? <==> Applicable(packet)
    ensures report.Some? ==> report.value == Report(db.State(), Run(DnsResponseStages, f, packet, EmptyCapture).value)
  {
    var got := new Capture(packet);
    var status, _ := got.PipelineIntended(DnsResponseStages, f);
    StandardRunMatches(f, packet, EmptyCapture);
    report := None;
    if status {
      var r := db.Analyzer(got);
      report := Some(r);
    }
  }

  /** The tables after `Init().WithVm(data)` on a dataset without malformed lines. */
  function LoadedVm(data: string): Tables
    requires WellFormed(Lines(data))
  {
    Tables(map[], map[], Maps.Assign(map[], VmWrites(Lines(data))))
  }

  /** `Init` followed by `WithVm` on a dataset without malformed lines leaves `LoadedVm(data)`. */
  method LoadVm(db: MemDataBuilder, data: string)
    requires WellFormed(Lines(data))
    modifies db
    ensures db.State() == LoadedVm(data)
  {
    db.Init();
    var malformed := db.WithVm(data);
    assert malformed == None;
    assert Lines(data)[..|Lines(data)|] == Lines(data);
  }

  /** A DNS response over UDP/IPv4 with one question and one answer. */
  function Response(port: uint16, query: string, answerName: string, answerAddr: IpAddr, dst: IpAddr): Packet
  {
    Packet(Some(UdpLayer(port)),
           Some(DnsLayer([query], [DnsAnswer(answerName, 4, answerAddr)])),
           Some(Ipv4Layer(dst)))
  }

  /** A well-formed dataset line `ip x app owner\n` is read back as exactly that record. */
  lemma DatasetLine(ip: string, app: string, owner: string)
    requires ' ' !in ip && ' ' !in app && ' ' !in owner && '\n' !in ip + app + owner
    ensures var line := ip + " x " + app + " " + owner + "\n";
            Lines(line) == [line] && ParseVmLine(line) == Some(VmRecord(ip, app, owner + "\n"))
  {
    var line := ip + " x " + app + " " + owner + "\n";
    var fields := [ip, "x", app, owner + "\n"];
    assert fields[1..][1..][1..] == [owner + "\n"];
    assert Join(fields[1..][1..], ' ') == app + " " + owner + "\n";
    assert Join(fields[1..], ' ') == "x " + app + " " + owner + "\n";
    assert Join(fields, ' ') == line;
    SplitJoin(fields, ' ');
    assert '\n' !in line[..|line| - 1] by {
      assert line[..|line| - 1] == ip + " x " + app + " " + owner;
    }
    assert Concat([line]) + [] == line;
    LinesOfConcat([line], []);
  }

  /**
   A dataset line `ip x app owner\n` and a response whose IPv4 destination formats as
   `ip`: the analyzer attributes the query to `app`, with the answer's name and address.
   */
  lemma EndToEndAttributed(f: Format, ip: string, app: string, owner: string,
                           port: uint16, query: string, answerName: string, answerAddr: IpAddr, dst: IpAddr)
    requires ' ' !in ip && ' ' !in app && ' ' !in owner && '\n' !in ip + app + owner
    requires app != "" && f.ip(dst) == ip
    ensures var data := ip + " x " + app + " " + owner + "\n";
            var p := Response(port, query, answerName, answerAddr, dst);
            && WellFormed(Lines(data))
            && Run(DnsResponseStages, f, p, EmptyCapture).allMatched
            && Report(LoadedVm(data), Run(DnsResponseStages, f, p, EmptyCapture).value)
               == Attributed(app, ip, answerName, f.ip(answerAddr))
  {
    var data := ip + " x " + app + " " + owner + "\n";
    var p := Response(port, query, answerName, answerAddr, dst);
    VmTableOfLine(ip, app, owner);
    StandardRunMatches(f, p, EmptyCapture);
    StandardRunThrough(f, p, EmptyCapture);
    var v1 := Step(UdpStage, f, p, EmptyCapture).value;
    DnsTakesLastQualifying(f, p, v1, 0);
  }

  /** Loading the single line `ip x app owner\n` maps `ip` to `app`. */
  lemma VmTableOfLine(ip: string, app: string, owner: string)
    requires ' ' !in ip && ' ' !in app && ' ' !in owner && '\n' !in ip + app + owner
    ensures var data := ip + " x " + app + " " + owner + "\n";
            WellFormed(Lines(data)) && ip in LoadedVm(data).vm && LoadedVm(data).vm[ip] == app
  {
    var data := ip + " x " + app + " " + owner + "\n";
    DatasetLine(ip, app, owner);
    assert WellFormed(Lines(data));
    Maps.AssignLast(map[], VmWrites(Lines(data)), 0);
  }

  /** A response for an IP neither table knows is reported as unresolved, under that IP. */
  lemma EndToEndUnknown(f: Format, t: Tables, port: uint16, query: string, answerName: string, answerAddr: IpAddr, dst: IpAddr)
    requires f.ip(dst) !in t.vm && f.ip(dst) !in t.podIp
    ensures var p := Response(port, query, answerName, answerAddr, dst);
            Report(t, Run(DnsResponseStages, f, p, EmptyCapture).value) == Unknown(f.ip(dst))
  {
    var p := Response(port, query, answerName, answerAddr, dst);
    StandardRunMatches(f, p, EmptyCapture);
    StandardRunThrough(f, p, EmptyCapture);
  }

  /** Of two answers with data, the second one's address is the one recorded. */
  lemma SecondAnswerWins(f: Format, c: CaptureValue, q: string, a1: DnsAnswer, a2: DnsAnswer)
    requires a1.dataLength != 0 && a2.dataLength != 0
    ensures var p := Packet(None, Some(DnsLayer([q], [a1, a2])), None);
            Step(DnsStage, f, p, c).value.answerIp == f.ip(a2.ip)
  {
    var p := Packet(None, Some(DnsLayer([q], [a1, a2])), None);
    DnsTakesLastQualifying(f, p, c, 1);
  }
}
