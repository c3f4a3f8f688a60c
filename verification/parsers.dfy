/** The two syslog line parsers of the ingest service (ingest/parsers.js).

    Each parser matches one anchored regular expression against the raw line.
    On a match it returns the named groups with "@timestamp" and "raw_log"
    added (and, for firewall lines, the ports read as numbers); otherwise it
    returns only { raw_log }. The two shapes of the returned object are the two
    constructors of `FirewallLog` and `NetworkLog`.

    The regular expressions are replaced by a matcher that walks positions of
    the line left to right, which gives the same answer because of how the
    patterns are built:
      - every `\s+` is followed by a non-blank literal or by `\S`, so it takes
        the whole run of blanks;
      - every `\S+` and `\d+` group is followed by `\s+` or by the end, so it
        takes the whole run of non-blanks, which must then be digits for `\d+`;
      - `(?<msg>.*?)` is lazy: the shortest message after which
        `\s+policy=(\S+)$` matches the rest of the line;
      - `(?<reason>.+)$` is greedy: the whole non-empty rest of the line.
    The conversion of the time text to an ISO-8601 instant (`parseTimeToISO`,
    which relies on `Date.parse` and the current year) is the parameter `toIso`. */
module Parsers {
  import opened Common

  /** The first position at or after `i` whose character is not in class `k`. */
  function Run(s: string, i: nat, k: CharClass): (j: nat)
    requires i <= |s|
    ensures i <= j <= |s|
    ensures forall x {:trigger In(s[x], k)} :: i <= x < j ==> In(s[x], k)
    ensures j == |s| || !In(s[j], k)
    decreases |s| - i
  {
    if i == |s| || !In(s[i], k) then i else Run(s, i + 1, k)
  }

  /** What holds of every position in a range holds of every character of
      the slice. */
  lemma SliceAll(s: string, lo: nat, hi: nat, k: CharClass)
    requires lo <= hi <= |s| && forall x :: lo <= x < hi ==> In(s[x], k)
    ensures All(s[lo..hi], k)
  {
    forall y | 0 <= y < hi - lo
      ensures In(s[lo..hi][y], k)
    {
      assert s[lo..hi][y] == s[lo + y];
    }
  }

  /** `\d{2}:\d{2}:\d{2}` */
  predicate IsClock(c: string)
  {
    |c| == 8 && IsDigit(c[0]) && IsDigit(c[1]) && c[2] == ':' && IsDigit(c[3])
    && IsDigit(c[4]) && c[5] == ':' && IsDigit(c[6]) && IsDigit(c[7])
  }

  /** `^<\d+>(?<time>\w+\s+\d+\s+\d{2}:\d{2}:\d{2})`: where the time group
      starts and ends. The line must open with a priority of one or more
      digits between angle brackets, which is matched but not kept. */
  function Header(s: string): (r: Option<(nat, nat)>)
    ensures r.Some? ==> 3 <= r.value.0 < r.value.1 <= |s|
    ensures r.Some? ==> s[0] == '<' && s[r.value.0 - 1] == '>' && All(s[1..r.value.0 - 1], Digit)
  {
    if s == [] || s[0] != '<' then None
    else
      var p := Run(s, 1, Digit);
      if p == 1 || p == |s| || s[p] != '>' then None
      else
        SliceAll(s, 1, p, Digit);
        TimeGroup(s, p + 1)
  }

  /** `\w+\s+\d+\s+\d{2}:\d{2}:\d{2}` from position `a`: where the group ends. */
  function TimeGroup(s: string, a: nat): (r: Option<(nat, nat)>)
    requires a <= |s|
    ensures r.Some? ==> r.value.0 == a < r.value.1 <= |s|
  {
    var w := Run(s, a, Word);
    var g1 := Run(s, w, Blank);
    var d := Run(s, g1, Digit);
    var g2 := Run(s, d, Blank);
    if a < w < g1 < d < g2 && g2 + 8 <= |s| && IsClock(s[g2..g2 + 8])
    then Some((a, g2 + 8))
    else None
  }

  /** One `\s+key(?<name>\S+)` or `\s+key(?<name>\d+)` step of a pattern. */
  datatype Piece = Piece(key: string, cls: CharClass)

  /** One piece read from position `i`: where its group starts and ends. */
  function KeyedToken(s: string, i: nat, p: Piece): (r: Option<(nat, nat)>)
    requires i <= |s|
    ensures r.Some? ==> i < r.value.0 < r.value.1 <= |s|
    ensures r.Some? ==> forall x :: r.value.0 <= x < r.value.1 ==> In(s[x], NonBlank) && In(s[x], p.cls)
    ensures r.Some? ==> r.value.1 == |s| || IsSpace(s[r.value.1])
  {
    var g := Run(s, i, Blank);
    var e := Run(s, g, NonBlank);
    var lo := g + |p.key|;
    if g > i && lo < e && s[g..lo] == p.key && Run(s, lo, p.cls) >= e
    then Some((lo, e))
    else None
  }

  /** The pieces `ps` read one after the other from position `i`: the texts of
      their groups and the position after the last. */
  function ReadTokens(s: string, i: nat, ps: seq<Piece>): (r: Option<(seq<string>, nat)>)
    requires i <= |s|
    ensures r.Some? ==> i <= r.value.1 <= |s| && |r.value.0| == |ps|
    ensures r.Some? ==> forall j :: 0 <= j < |ps| ==>
      r.value.0[j] != [] && All(r.value.0[j], NonBlank) && All(r.value.0[j], ps[j].cls)
    decreases ps
  {
    if ps == [] then Some(([], i))
    else
      match KeyedToken(s, i, ps[0])
      case None => None
      case Some(cut) =>
        match ReadTokens(s, cut.1, ps[1..])
        case None => None
        case Some(more) =>
          var vs := [s[cut.0..cut.1]] + more.0;
          assert forall j :: 1 <= j < |ps| ==> vs[j] == more.0[j - 1] && ps[j] == ps[1..][j - 1];
          Some((vs, more.1))
  }

  /** `\s+policy=(?<policy>\S+)$` matched from position `k` to the end: where
      the policy starts. */
  function PolicyTail(s: string, k: nat): (r: Option<nat>)
    requires k <= |s|
    ensures r.Some? ==> k < r.value < |s| && IsSpace(s[k])
    ensures r.Some? ==> forall x :: r.value <= x < |s| ==> In(s[x], NonBlank)
  {
    var g := Run(s, k, Blank);
    if g > k && g + 7 < |s| && s[g..g + 7] == "policy=" && Run(s, g + 7, NonBlank) == |s|
    then Some(g + 7)
    else None
  }

  /** `(?<msg>.*?)` before the policy tail: the lazy quantifier tries the
      message ends `k`, `k + 1`, ... and stops at the first after which the
      rest of the line is a policy tail, or fails at a line terminator. */
  function LazyMsg(s: string, k: nat): (r: Option<nat>)
    requires k <= |s|
    ensures r.Some? ==> k <= r.value <= |s| && PolicyTail(s, r.value).Some?
    decreases |s| - k
  {
    if PolicyTail(s, k).Some? then Some(k)
    else if k < |s| && IsDotChar(s[k]) then LazyMsg(s, k + 1)
    else None
  }

  /** Every shorter message was tried and rejected, and `.` matched each of
      its characters. */
  lemma {:induction false} LazyMsgLeast(s: string, k: nat, j: nat)
    requires k <= |s| && LazyMsg(s, k).Some? && k <= j < LazyMsg(s, k).value
    ensures IsDotChar(s[j]) && PolicyTail(s, j).None?
    decreases |s| - k
  {
    if j > k {
      LazyMsgLeast(s, k + 1, j);
    }
  }

  /** A blank in front of a policy tail belongs to the tail's own `\s+`. */
  lemma PolicyTailExtend(s: string, k: nat)
    requires 0 < k <= |s| && IsSpace(s[k - 1]) && PolicyTail(s, k).Some?
    ensures PolicyTail(s, k - 1) == PolicyTail(s, k)
  {
    assert Run(s, k - 1, Blank) == Run(s, k, Blank);
  }

  /** The message the lazy quantifier settles on holds no line terminator. */
  lemma LazyMsgDots(s: string, k: nat)
    requires k <= |s| && LazyMsg(s, k).Some?
    ensures All(s[k..LazyMsg(s, k).value], Dot)
  {
    forall x | k <= x < LazyMsg(s, k).value
      ensures In(s[x], Dot)
    {
      LazyMsgLeast(s, k, x);
    }
    SliceAll(s, k, LazyMsg(s, k).value, Dot);
  }

  /** The message the lazy quantifier settles on never ends in a blank: with a
      trailing blank, the message one shorter would already have matched. */
  lemma LazyMsgNoTrailingBlank(s: string, k: nat, e: nat)
    requires k <= |s| && LazyMsg(s, k) == Some(e) && k < e
    ensures In(s[e - 1], NonBlank)
  {
    if IsSpace(s[e - 1]) {
      LazyMsgLeast(s, k, e - 1);
      PolicyTailExtend(s, e);
      assert false;
    }
  }

  /** `\s+msg=(?<msg>.*?)\s+policy=(?<policy>\S+)$` from position `i`: the
      message and the policy. The message holds no line terminator and does
      not end in a blank; the policy is a non-empty run of non-blanks that ends
      the line. */
  function MsgPolicy(s: string, i: nat): (r: Option<(string, string)>)
    requires i <= |s|
    ensures r.Some? ==> Message(r.value.0)
    ensures r.Some? ==> Token(r.value.1) && IsSuffix(r.value.1, s)
  {
    var g := Run(s, i, Blank);
    if g > i && g + 4 <= |s| && s[g..g + 4] == "msg=" then
      match LazyMsg(s, g + 4)
      case None => None
      case Some(e) =>
        MsgShape(s, g + 4, e);
        PolicyShape(s, e);
        Some((s[g + 4..e], s[PolicyTail(s, e).value..]))
    else None
  }

  lemma MsgShape(s: string, k: nat, e: nat)
    requires k <= |s| && LazyMsg(s, k) == Some(e)
    ensures Message(s[k..e])
  {
    LazyMsgDots(s, k);
    if k < e {
      LazyMsgNoTrailingBlank(s, k, e);
      assert s[k..e][e - k - 1] == s[e - 1];
    }
  }

  lemma PolicyShape(s: string, e: nat)
    requires e <= |s| && PolicyTail(s, e).Some?
    ensures Token(s[PolicyTail(s, e).value..]) && IsSuffix(s[PolicyTail(s, e).value..], s)
  {
    var pos := PolicyTail(s, e).value;
    SliceAll(s, pos, |s|, NonBlank);
    assert s[pos..] == s[pos..|s|];
  }

  // ---------------------------------------------------------------------------
  // Firewall lines

  /** The pieces between the time and the message, in the order of the pattern. */
  const FirewallPieces: seq<Piece> :=
    [Piece("", NonBlank), Piece("vendor=", NonBlank), Piece("product=", NonBlank),
     Piece("action=", NonBlank), Piece("src=", NonBlank), Piece("dst=", NonBlank),
     Piece("spt=", Digit), Piece("dpt=", Digit), Piece("proto=", NonBlank)]

  datatype FirewallFields = FirewallFields(
    time: string, hostname: string, vendor: string, product: string,
    action: string, src: string, dst: string, spt: string, dpt: string,
    proto: string, msg: string, policy: string)

  /** `\S+`: a non-empty run of non-blanks. */
  predicate Token(t: string) { t != [] && All(t, NonBlank) }

  /** `\d+` */
  predicate Digits(t: string) { t != [] && All(t, Digit) }

  /** What the lazy `.*?` leaves as a message: no line terminator, and no
      blank at the end (that blank would belong to `\s+policy=`). */
  predicate Message(m: string) { All(m, Dot) && (m == [] || In(m[|m| - 1], NonBlank)) }

  /** The groups every firewall match has, whatever the line. */
  predicate FirewallShaped(f: FirewallFields)
  {
    && Token(f.hostname) && Token(f.vendor) && Token(f.product) && Token(f.action)
    && Token(f.src) && Token(f.dst) && Digits(f.spt) && Digits(f.dpt) && Token(f.proto)
    && Message(f.msg) && Token(f.policy)
  }

  /** The groups of `FIREWALL_REGEX.exec(line)`, if it matches: every group has
      the shape its sub-pattern allows, and the policy ends the line. */
  function MatchFirewall(line: string): (r: Option<FirewallFields>)
    ensures r.Some? ==> FirewallShaped(r.value) && IsSuffix(r.value.policy, line)
  {
    match Header(line)
    case None => None
    case Some(time) =>
      match ReadTokens(line, time.1, FirewallPieces)
      case None => None
      case Some(ts) =>
        match MsgPolicy(line, ts.1)
        case None => None
        case Some(tail) =>
          var v := ts.0;
          assert FirewallPieces[6].cls == FirewallPieces[7].cls == Digit;
          Some(FirewallFields(line[time.0..time.1], v[0], v[1], v[2], v[3], v[4], v[5],
                              v[6], v[7], v[8], tail.0, tail.1))
  }

  /** The object `parseFirewallLog` returns: only { raw_log } when the line does
      not match, otherwise the groups (ports as numbers), "@timestamp" and
      "raw_log". */
  datatype FirewallLog =
    | FirewallRaw(rawLog: string)
    | FirewallEntry(
        time: string, hostname: string, vendor: string, product: string,
        action: string, src: string, dst: string, spt: nat, dpt: nat,
        proto: string, msg: string, policy: string,
        timestamp: Option<string>, rawLog: string)

  /** `parseFirewallLog(rawLog)`; `toIso` stands for `parseTimeToISO`, `None`
      for its `null`. */
  function ParseFirewallLog(rawLog: string, toIso: string -> Option<string>): (r: FirewallLog)
    ensures r.rawLog == rawLog
    ensures r.FirewallEntry? <==> MatchFirewall(rawLog).Some?
    ensures r.FirewallEntry? ==> r.timestamp == toIso(r.time)
  {
    match MatchFirewall(rawLog)
    case None => FirewallRaw(rawLog)
    case Some(f) =>
      FirewallEntry(f.time, f.hostname, f.vendor, f.product, f.action, f.src, f.dst,
                    DigitsValue(f.spt), DigitsValue(f.dpt), f.proto, f.msg, f.policy,
                    toIso(f.time), rawLog)
  }

  // ---------------------------------------------------------------------------
  // Network lines

  const NetworkPieces: seq<Piece> :=
    [Piece("", NonBlank), Piece("if=", NonBlank), Piece("event=", NonBlank), Piece("mac=", NonBlank)]

  datatype NetworkFields = NetworkFields(
    time: string, hostname: string, iface: string, event: string, mac: string, reason: string)

  /** `\s+reason=(?<reason>.+)$` from position `i` to the end: the reason. */
  function ReasonTail(s: string, i: nat): (r: Option<string>)
    requires i <= |s|
    ensures r.Some? ==> r.value != [] && All(r.value, Dot) && IsSuffix(r.value, s)
  {
    var g := Run(s, i, Blank);
    if g > i && g + 7 < |s| && s[g..g + 7] == "reason=" && Run(s, g + 7, Dot) == |s|
    then
      SliceAll(s, g + 7, |s|, Dot);
      assert s[g + 7..] == s[g + 7..|s|];
      Some(s[g + 7..])
    else None
  }

  /** The groups every network match has, whatever the line. */
  predicate NetworkShaped(f: NetworkFields)
  {
    Token(f.hostname) && Token(f.iface) && Token(f.event) && Token(f.mac)
    && f.reason != [] && All(f.reason, Dot)
  }

  /** The groups of `NETWORK_REGEX.exec(line)`, if it matches: the reason is
      the whole rest of the line. */
  function MatchNetwork(line: string): (r: Option<NetworkFields>)
    ensures r.Some? ==> NetworkShaped(r.value) && IsSuffix(r.value.reason, line)
  {
    match Header(line)
    case None => None
    case Some(time) =>
      match ReadTokens(line, time.1, NetworkPieces)
      case None => None
      case Some(ts) =>
        match ReasonTail(line, ts.1)
        case None => None
        case Some(reason) =>
          var v := ts.0;
          Some(NetworkFields(line[time.0..time.1], v[0], v[1], v[2], v[3], reason))
  }

  /** The object `parseNetworkLog` returns; the group `interface` keeps its
      text, no field is read as a number. */
  datatype NetworkLog =
    | NetworkRaw(rawLog: string)
    | NetworkEntry(
        time: string, hostname: string, iface: string, event: string, mac: string,
        reason: string, timestamp: Option<string>, rawLog: string)

  /** `parseNetworkLog(rawLog)` */
  function ParseNetworkLog(rawLog: string, toIso: string -> Option<string>): (r: NetworkLog)
    ensures r.rawLog == rawLog
    ensures r.NetworkEntry? <==> MatchNetwork(rawLog).Some?
    ensures r.NetworkEntry? ==> r.timestamp == toIso(r.time)
  {
    match MatchNetwork(rawLog)
    case None => NetworkRaw(rawLog)
    case Some(f) =>
      NetworkEntry(f.time, f.hostname, f.iface, f.event, f.mac, f.reason, toIso(f.time), rawLog)
  }
}
