/** What the two patterns do with lines that end in a blank, ports, and the
    sample lines of the repository's ingestion test and syslog sender. */
module ParserExamples {
  import opened Common
  import opened Parsers
  import opened ParserProperties

  /** `$` without the multiline flag only matches at the very end, and the
      final `policy` token holds no blank: a matched firewall line ends in a
      non-blank. */
  lemma FirewallEndsNonBlank(line: string)
    ensures MatchFirewall(line).Some? ==> line != [] && In(line[|line| - 1], NonBlank)
  {
    if MatchFirewall(line).Some? {
      var policy := MatchFirewall(line).value.policy;
      SuffixLast(policy, line);
    }
  }

  /** `.+` does not cross a line terminator and runs to the end: a matched
      network line does not end in a line terminator. */
  lemma NetworkEndsInDot(line: string)
    ensures MatchNetwork(line).Some? ==> line != [] && In(line[|line| - 1], Dot)
  {
    if MatchNetwork(line).Some? {
      var reason := MatchNetwork(line).value.reason;
      SuffixLast(reason, line);
    }
  }

  /** A non-empty suffix ends where the text ends. */
  lemma SuffixLast(suffix: string, s: string)
    requires suffix != [] && IsSuffix(suffix, s)
    ensures s != [] && s[|s| - 1] == suffix[|suffix| - 1]
  {
    assert s[|s| - |suffix|..][|suffix| - 1] == s[|s| - 1];
  }

  /** A line sent with its trailing "\n" comes back as the raw line only. */
  lemma NewlineGivesRaw(line: string, toIso: string -> Option<string>)
    ensures ParseFirewallLog(line + "\n", toIso) == FirewallRaw(line + "\n")
    ensures ParseNetworkLog(line + "\n", toIso) == NetworkRaw(line + "\n")
  {
    var s := line + "\n";
    assert s[|s| - 1] == '\n';
    FirewallEndsNonBlank(s);
    NetworkEndsInDot(s);
  }

  // ---------------------------------------------------------------------------
  // Ports and sample lines

  /** Ports written as decimal text are read back as the numbers they spell. */
  lemma PortsRoundTrip(st: Stamp, f: FirewallFields, spt: nat, dpt: nat,
                       toIso: string -> Option<string>)
    requires ValidStamp(st) && f.time == TimeText(st) && FirewallShaped(f)
    requires f.spt == NatToDecimal(spt) && f.dpt == NatToDecimal(dpt)
    ensures ParseFirewallLog(FirewallLine(st, f), toIso).FirewallEntry?
      && ParseFirewallLog(FirewallLine(st, f), toIso).spt == spt
      && ParseFirewallLog(FirewallLine(st, f), toIso).dpt == dpt
  {
    ParseFirewallRoundTrip(st, f, toIso);
    DigitsValueOfDecimal(spt);
    DigitsValueOfDecimal(dpt);
  }

  lemma Plain(t: string)
    requires t != [] && forall i :: 0 <= i < |t| ==> PlainChar(t[i])
    ensures Token(t) && All(t, Dot)
  {
    PlainNonBlank(t);
  }

  /** The header of the ingestion test's firewall line. */
  const FirewallSampleStamp := Stamp("134", "Aug", "20", "12:44:56")

  /** Its groups: the line spelled by `FirewallLine(FirewallSampleStamp,
      FirewallSampleFields)` is
      <134>Aug 20 12:44:56 fw01 vendor=demo product=ngfw action=deny src=10.0.1.10
      dst=8.8.8.8 spt=5353 dpt=53 proto=udp msg=DNS blocked policy=Block-DNS
      (on one line). */
  const FirewallSampleFields :=
    FirewallFields("Aug 20 12:44:56", "fw01", "demo", "ngfw", "deny", "10.0.1.10", "8.8.8.8",
                   NatToDecimal(5353), NatToDecimal(53), "udp", "DNS blocked", "Block-DNS")

  /** The ingestion test's firewall line: the ports become 5353 and 53 and the
      message keeps its inner blank. */
  lemma FirewallSampleParsed(toIso: string -> Option<string>)
    ensures ParseFirewallLog(FirewallLine(FirewallSampleStamp, FirewallSampleFields), toIso) ==
      FirewallEntry("Aug 20 12:44:56", "fw01", "demo", "ngfw", "deny", "10.0.1.10", "8.8.8.8",
                    5353, 53, "udp", "DNS blocked", "Block-DNS", toIso("Aug 20 12:44:56"),
                    FirewallLine(FirewallSampleStamp, FirewallSampleFields))
  {
    FirewallSampleShaped();
    PortsRoundTrip(FirewallSampleStamp, FirewallSampleFields, 5353, 53, toIso);
    ParseFirewallRoundTrip(FirewallSampleStamp, FirewallSampleFields, toIso);
  }

  lemma FirewallSampleShaped()
    ensures ValidStamp(FirewallSampleStamp) && FirewallShaped(FirewallSampleFields)
  {
    FirewallSampleTokens();
    FirewallSampleMessage();
  }

  lemma FirewallSampleTokens()
    ensures Token("fw01") && Token("demo") && Token("ngfw") && Token("deny")
    ensures Token("10.0.1.10") && Token("8.8.8.8") && Token("udp") && Token("Block-DNS")
  {
    Plain("fw01"); Plain("demo"); Plain("ngfw"); Plain("deny"); Plain("10.0.1.10");
    Plain("8.8.8.8"); Plain("udp"); Plain("Block-DNS");
  }

  lemma FirewallSampleMessage()
    ensures Message("DNS blocked")
  {
    assert All("DNS blocked", Dot);
  }

  /** The header of the syslog sender's network line. */
  const NetworkSampleStamp := Stamp("190", "Aug", "20", "13:01:02")

  /** Its groups: the line spelled by `NetworkLine(NetworkSampleStamp,
      NetworkSampleFields)` is
      <190>Aug 20 13:01:02 r1 if=ge-0/0/1 event=link-down mac=aa:bb:cc:dd:ee:ff reason=carrier-loss
      (the sender appends a "\n", see `NewlineGivesRaw`). */
  const NetworkSampleFields :=
    NetworkFields("Aug 20 13:01:02", "r1", "ge-0/0/1", "link-down", "aa:bb:cc:dd:ee:ff",
                  "carrier-loss")

  /** The syslog sender's network line without its "\n": the reason is the
      rest of the line and the interface keeps its slashes. */
  lemma NetworkSampleParsed(toIso: string -> Option<string>)
    ensures ParseNetworkLog(NetworkLine(NetworkSampleStamp, NetworkSampleFields), toIso) ==
      NetworkEntry("Aug 20 13:01:02", "r1", "ge-0/0/1", "link-down", "aa:bb:cc:dd:ee:ff",
                   "carrier-loss", toIso("Aug 20 13:01:02"),
                   NetworkLine(NetworkSampleStamp, NetworkSampleFields))
  {
    NetworkSampleShaped();
    ParseNetworkRoundTrip(NetworkSampleStamp, NetworkSampleFields, toIso);
  }

  lemma NetworkSampleShaped()
    ensures ValidStamp(NetworkSampleStamp) && NetworkShaped(NetworkSampleFields)
  {
    Plain("r1"); Plain("ge-0/0/1"); Plain("link-down"); Plain("aa:bb:cc:dd:ee:ff");
    Plain("carrier-loss");
  }
}
