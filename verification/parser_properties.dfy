/** What the two syslog parsers promise: a line built from well-formed parts
    is read back into exactly those parts. */
module ParserProperties {
  import opened Common
  import opened Parsers

  // ---------------------------------------------------------------------------
  // Scanning facts

  /** `Run` stops exactly at the first position past a run of class `k`. */
  lemma {:induction false} RunExact(s: string, i: nat, j: nat, k: CharClass)
    requires i <= j <= |s|
    requires forall x :: i <= x < j ==> In(s[x], k)
    requires j == |s| || !In(s[j], k)
    ensures Run(s, i, k) == j
    decreases j - i
  {
    if i < j {
      RunExact(s, i + 1, j, k);
    }
  }

  /** `Run` gets at least past every position in class `k`. */
  lemma {:induction false} RunAtLeast(s: string, i: nat, j: nat, k: CharClass)
    requires i <= j <= |s|
    requires forall x :: i <= x < j ==> In(s[x], k)
    ensures Run(s, i, k) >= j
    decreases j - i
  {
    if i < j {
      RunAtLeast(s, i + 1, j, k);
    }
  }

  /** `Run` stops at the latest at a character outside class `k`. */
  lemma RunStops(s: string, i: nat, x: nat, k: CharClass)
    requires i <= x < |s| && !In(s[x], k)
    ensures Run(s, i, k) <= x
  {
  }

  /** `Run` over a known word `w` of class `k` followed by a character outside it. */
  lemma RunOver(s: string, i: nat, w: string, k: CharClass)
    requires i + |w| <= |s| && s[i..i + |w|] == w && All(w, k)
    requires i + |w| == |s| || !In(s[i + |w|], k)
    ensures Run(s, i, k) == i + |w|
  {
    forall x | i <= x < i + |w|
      ensures In(s[x], k)
    {
      assert s[x] == w[x - i];
    }
    RunExact(s, i, i + |w|, k);
  }

  /** `w` occurs in `s` at position `i`. */
  predicate At(s: string, i: nat, w: string)
  {
    i + |w| <= |s| && s[i..i + |w|] == w
  }

  lemma AtSplit(s: string, i: nat, a: string, b: string)
    requires At(s, i, a + b)
    ensures At(s, i, a) && At(s, i + |a|, b)
  {
    assert s[i..i + |a|] == s[i..i + |a + b|][..|a|];
    assert s[i + |a|..i + |a| + |b|] == s[i..i + |a + b|][|a|..];
  }

  lemma AtChar(s: string, i: nat, w: string, x: nat)
    requires At(s, i, w) && x < |w|
    ensures s[i + x] == w[x]
  {
    assert s[i..i + |w|][x] == s[i + x];
  }

  /** A `\S+` group may end at `n`: the line ends there or a blank follows. */
  predicate BreakAt(s: string, n: nat)
  {
    n == |s| || (n < |s| && IsSpace(s[n]))
  }

  lemma AllConcat(a: string, b: string, k: CharClass)
    requires All(a, k) && All(b, k)
    ensures All(a + b, k)
  {
    forall x | 0 <= x < |a + b|
      ensures In((a + b)[x], k)
    {
      if x >= |a| {
        assert (a + b)[x] == b[x - |a|];
      }
    }
  }

  // ---------------------------------------------------------------------------
  // The header `<pri>month day hh:mm:ss`

  datatype Stamp = Stamp(pri: string, month: string, day: string, clock: string)

  /** What `<\d+>\w+\s+\d+\s+\d{2}:\d{2}:\d{2}` accepts, with single blanks. */
  predicate ValidStamp(st: Stamp)
  {
    && st.pri != [] && All(st.pri, Digit)
    && st.month != [] && All(st.month, Word)
    && st.day != [] && All(st.day, Digit)
    && IsClock(st.clock)
  }

  /** The time group. */
  function TimeText(st: Stamp): string
  {
    st.month + " " + st.day + " " + st.clock
  }

  function StampText(st: Stamp): string
  {
    "<" + st.pri + ">" + TimeText(st)
  }


  /** A run of class `k` ended by one blank and then a non-blank. */
  lemma RunThenBlank(s: string, i: nat, w: string, k: CharClass)
    requires w != [] && All(w, k) && !In(' ', k)
    requires At(s, i, w + " ") && i + |w| + 1 < |s| && !IsSpace(s[i + |w| + 1])
    ensures Run(s, i, k) == i + |w| && Run(s, i + |w|, Blank) == i + |w| + 1
  {
    AtSplit(s, i, w, " ");
    AtChar(s, i + |w|, " ", 0);
    RunOver(s, i, w, k);
    RunOver(s, i + |w|, " ", Blank);
  }

  lemma HeaderPri(s: string, st: Stamp, p: nat)
    requires ValidStamp(st) && At(s, 0, StampText(st)) && p == |st.pri| + 1
    ensures p < |s| && s[0] == '<' && Run(s, 1, Digit) == p && s[p] == '>'
    ensures At(s, p + 1, TimeText(st))
  {
    AtSplit(s, 0, "<" + st.pri + ">", TimeText(st));
    AtSplit(s, 0, "<" + st.pri, ">");
    AtSplit(s, 0, "<", st.pri);
    AtChar(s, 0, "<", 0);
    AtChar(s, p, ">", 0);
    RunOver(s, 1, st.pri, Digit);
  }

  lemma HeaderMonth(s: string, st: Stamp, a: nat, w: nat, g1: nat)
    requires ValidStamp(st) && At(s, a, TimeText(st)) && w == a + |st.month| && g1 == w + 1
    ensures Run(s, a, Word) == w && Run(s, w, Blank) == g1
    ensures At(s, g1, st.day + " " + st.clock)
  {
    var rest := st.day + " " + st.clock;
    assert TimeText(st) == (st.month + " ") + rest;
    AtSplit(s, a, st.month + " ", rest);
    AtChar(s, g1, rest, 0);
    assert s[g1] == st.day[0] && In(st.day[0], Digit);
    RunThenBlank(s, a, st.month, Word);
  }

  lemma HeaderDay(s: string, st: Stamp, g1: nat, d: nat, g2: nat)
    requires ValidStamp(st) && At(s, g1, st.day + " " + st.clock) && d == g1 + |st.day| && g2 == d + 1
    ensures Run(s, g1, Digit) == d && Run(s, d, Blank) == g2
    ensures g2 + 8 <= |s| && s[g2..g2 + 8] == st.clock
  {
    AtSplit(s, g1, st.day + " ", st.clock);
    AtChar(s, g2, st.clock, 0);
    RunThenBlank(s, g1, st.day, Digit);
  }

  lemma HeaderFrom(s: string, p: nat, a: nat, w: nat, g1: nat, d: nat, g2: nat, b: nat)
    requires 1 < p < |s| && s[0] == '<' && Run(s, 1, Digit) == p && s[p] == '>' && a == p + 1
    requires a <= |s| && Run(s, a, Word) == w && Run(s, w, Blank) == g1
    requires Run(s, g1, Digit) == d && Run(s, d, Blank) == g2 && a < w < g1 < d < g2
    requires b == g2 + 8 <= |s| && IsClock(s[g2..b])
    ensures Header(s) == Some((a, b))
  {
    TimeGroupFrom(s, a, w, g1, d, g2, b);
  }

  lemma TimeGroupFrom(s: string, a: nat, w: nat, g1: nat, d: nat, g2: nat, b: nat)
    requires a <= |s| && Run(s, a, Word) == w && Run(s, w, Blank) == g1
    requires Run(s, g1, Digit) == d && Run(s, d, Blank) == g2 && a < w < g1 < d < g2
    requires b == g2 + 8 <= |s| && IsClock(s[g2..b])
    ensures TimeGroup(s, a) == Some((a, b))
  {
  }

  /** A well-formed header is recognised, and the time group is exactly its
      time text, whatever follows; `a` and `b` are where the time text starts
      and ends. */
  lemma HeaderRoundTrip(s: string, st: Stamp, a: nat, b: nat)
    requires ValidStamp(st) && At(s, 0, StampText(st))
    requires a == |st.pri| + 2 && b == |StampText(st)|
    ensures Header(s) == Some((a, b))
    ensures s[a..b] == TimeText(st)
  {
    var w := a + |st.month|;
    var g1 := w + 1;
    var d := g1 + |st.day|;
    var g2 := d + 1;
    HeaderPri(s, st, a - 1);
    HeaderMonth(s, st, a, w, g1);
    HeaderDay(s, st, g1, d, g2);
    HeaderFrom(s, a - 1, a, w, g1, d, g2, b);
  }

  // ---------------------------------------------------------------------------
  // The keyed tokens

  /** The text pieces `ps` read as the groups `vs`: " key value" for each. */
  function Joined(ps: seq<Piece>, vs: seq<string>): string
    requires |ps| == |vs|
    decreases ps
  {
    if ps == [] then [] else " " + ps[0].key + vs[0] + Joined(ps[1..], vs[1..])
  }

  /** Each group is a non-empty run of non-blanks of its piece's class, and
      no key holds a blank. */
  predicate ValidGroups(ps: seq<Piece>, vs: seq<string>)
  {
    |ps| == |vs| && KeysNonBlank(ps) && forall j :: 0 <= j < |ps| ==> Token(vs[j]) && All(vs[j], ps[j].cls)
  }

  predicate KeysNonBlank(ps: seq<Piece>)
  {
    forall j :: 0 <= j < |ps| ==> All(ps[j].key, NonBlank)
  }

  lemma KeyedBlank(s: string, i: nat, p: Piece, v: string)
    requires Token(v) && All(p.key, NonBlank) && At(s, i, " " + p.key + v)
    ensures Run(s, i, Blank) == i + 1
  {
    var lo := i + 1 + |p.key|;
    AtSplit(s, i, " " + p.key, v);
    AtSplit(s, i, " ", p.key);
    AllConcat(p.key, v, NonBlank);
    assert s[i + 1..lo + |v|] == s[i + 1..lo] + s[lo..lo + |v|];
    AtChar(s, i + 1, p.key + v, 0);
    RunOver(s, i, " ", Blank);
  }

  lemma KeyedKey(s: string, i: nat, p: Piece, v: string)
    requires Token(v) && All(p.key, NonBlank) && At(s, i, " " + p.key + v)
    requires BreakAt(s, i + 1 + |p.key| + |v|)
    ensures Run(s, i + 1, NonBlank) == i + 1 + |p.key| + |v|
    ensures s[i + 1..i + 1 + |p.key|] == p.key
  {
    var lo := i + 1 + |p.key|;
    AtSplit(s, i, " " + p.key, v);
    AtSplit(s, i, " ", p.key);
    assert s[i + 1..lo + |v|] == s[i + 1..lo] + s[lo..lo + |v|];
    AllConcat(p.key, v, NonBlank);
    RunOver(s, i + 1, p.key + v, NonBlank);
  }

  lemma KeyedValue(s: string, i: nat, p: Piece, v: string)
    requires All(v, p.cls) && At(s, i, " " + p.key + v)
    ensures Run(s, i + 1 + |p.key|, p.cls) >= i + 1 + |p.key| + |v|
    ensures s[i + 1 + |p.key|..i + 1 + |p.key| + |v|] == v
  {
    var lo := i + 1 + |p.key|;
    AtSplit(s, i, " " + p.key, v);
    forall x | lo <= x < lo + |v|
      ensures In(s[x], p.cls)
    {
      AtChar(s, lo, v, x - lo);
    }
    RunAtLeast(s, lo, lo + |v|, p.cls);
  }

  lemma KeyedTokenFrom(s: string, i: nat, p: Piece, lo: nat, n: nat)
    requires i + 1 <= |s| && lo == i + 1 + |p.key| && lo < n <= |s|
    requires Run(s, i, Blank) == i + 1 && Run(s, i + 1, NonBlank) == n
    requires s[i + 1..lo] == p.key && Run(s, lo, p.cls) >= n
    ensures KeyedToken(s, i, p) == Some((lo, n))
  {
  }

  /** One group with its key after a single blank is read back exactly. */
  lemma KeyedTokenRoundTrip(s: string, i: nat, p: Piece, v: string, lo: nat, n: nat)
    requires Token(v) && All(v, p.cls) && All(p.key, NonBlank)
    requires At(s, i, " " + p.key + v)
    requires lo == i + 1 + |p.key| && n == lo + |v| && BreakAt(s, n)
    ensures KeyedToken(s, i, p) == Some((lo, n))
    ensures s[lo..n] == v
  {
    KeyedBlank(s, i, p, v);
    KeyedKey(s, i, p, v);
    KeyedValue(s, i, p, v);
    KeyedTokenFrom(s, i, p, lo, n);
  }

  lemma ValidGroupsTail(ps: seq<Piece>, vs: seq<string>)
    requires ValidGroups(ps, vs) && ps != []
    ensures ValidGroups(ps[1..], vs[1..]) && All(ps[0].key, NonBlank)
  {
    forall j | 0 <= j < |ps| - 1
      ensures vs[1..][j] == vs[j + 1] && ps[1..][j] == ps[j + 1]
    {
    }
  }

  lemma ReadTokensFrom(s: string, i: nat, ps: seq<Piece>, vs: seq<string>, lo: nat, n: nat, e: nat)
    requires i <= |s| && ps != [] && vs != []
    requires KeyedToken(s, i, ps[0]) == Some((lo, n)) && s[lo..n] == vs[0]
    requires ReadTokens(s, n, ps[1..]) == Some((vs[1..], e))
    ensures ReadTokens(s, i, ps) == Some((vs, e))
  {
    assert [vs[0]] + vs[1..] == vs;
  }

  /** Reading the first group leaves the rest of the joined text, with the
      same guarantees, for the remaining pieces. */
  lemma ReadTokensHead(s: string, i: nat, ps: seq<Piece>, vs: seq<string>, lo: nat, m: nat, e: nat)
    requires ValidGroups(ps, vs) && At(s, i, Joined(ps, vs)) && ps != []
    requires e == i + |Joined(ps, vs)| && BreakAt(s, e)
    requires lo == i + 1 + |ps[0].key| && m == lo + |vs[0]|
    ensures KeyedToken(s, i, ps[0]) == Some((lo, m)) && s[lo..m] == vs[0]
    ensures ValidGroups(ps[1..], vs[1..]) && At(s, m, Joined(ps[1..], vs[1..]))
    ensures e == m + |Joined(ps[1..], vs[1..])|
  {
    var head := " " + ps[0].key + vs[0];
    var rest := Joined(ps[1..], vs[1..]);
    assert Joined(ps, vs) == head + rest;
    AtSplit(s, i, head, rest);
    assert i + |head| == m;
    BreakBeforeRest(s, m, rest, e);
    ValidGroupsTail(ps, vs);
    KeyedTokenRoundTrip(s, i, ps[0], vs[0], lo, m);
  }

  /** The joined rest of the groups starts with a blank, or is empty and
      ends at a break: either way its start is a break. */
  lemma BreakBeforeRest(s: string, m: nat, rest: string, e: nat)
    requires At(s, m, rest) && e == m + |rest| && BreakAt(s, e)
    requires rest == [] || rest[0] == ' '
    ensures BreakAt(s, m)
  {
    if rest != [] {
      AtChar(s, m, rest, 0);
    }
  }

  /** Groups joined with their keys and single blanks are read back exactly;
      `e` is where the joined text ends. */
  lemma {:induction false} ReadTokensRoundTrip(s: string, i: nat, ps: seq<Piece>, vs: seq<string>, e: nat)
    requires ValidGroups(ps, vs) && At(s, i, Joined(ps, vs))
    requires e == i + |Joined(ps, vs)| && BreakAt(s, e)
    ensures ReadTokens(s, i, ps) == Some((vs, e))
    decreases ps
  {
    if ps != [] {
      var lo := i + 1 + |ps[0].key|;
      var m := lo + |vs[0]|;
      ReadTokensHead(s, i, ps, vs, lo, m, e);
      ReadTokensRoundTrip(s, m, ps[1..], vs[1..], e);
      ReadTokensFrom(s, i, ps, vs, lo, m, e);
    }
  }

  // ---------------------------------------------------------------------------
  // The message and the policy

  /** `s` is `a`, then `b`, then `c`. */
  lemma Split3(s: string, a: string, b: string, c: string, i: nat, j: nat)
    requires s == a + b + c && i == |a| && j == i + |b|
    ensures At(s, 0, a) && At(s, i, b) && At(s, j, c) && j + |c| == |s|
  {
    assert s[0..|s|] == s;
    AtSplit(s, 0, a + b, c);
    AtSplit(s, 0, a, b);
  }

  /** The text `\s+msg=(?<msg>.*?)\s+policy=(?<policy>\S+)$` reads, with single blanks. */
  function MsgText(msg: string, policy: string): string
  {
    " msg=" + msg + " policy=" + policy
  }

  lemma MsgSplit(s: string, i: nat, msg: string, policy: string, k: nat, e: nat, q: nat)
    requires At(s, i, MsgText(msg, policy)) && k == i + 5 && e == k + |msg| && q == e + 8
    ensures At(s, i, " msg=") && At(s, k, msg) && At(s, e, " policy=") && At(s, q, policy)
  {
    AtSplit(s, i, " msg=" + msg + " policy=", policy);
    AtSplit(s, i, " msg=" + msg, " policy=");
    AtSplit(s, i, " msg=", msg);
  }

  lemma MsgHead(s: string, i: nat)
    requires At(s, i, " msg=")
    ensures Run(s, i, Blank) == i + 1 && s[i + 1..i + 5] == "msg="
  {
    AtChar(s, i, " msg=", 0);
    AtChar(s, i, " msg=", 1);
    RunExact(s, i, i + 1, Blank);
    assert s[i + 1..i + 5] == s[i..i + 5][1..];
  }

  lemma PolicyTailFrom(s: string, e: nat, q: nat)
    requires e + 1 <= |s| && Run(s, e, Blank) == e + 1 && q == e + 8 < |s|
    requires s[e + 1..q] == "policy=" && Run(s, q, NonBlank) == |s|
    ensures PolicyTail(s, e) == Some(q)
  {
  }

  /** The policy tail after the message is recognised where it starts. */
  lemma PolicyTailAt(s: string, e: nat, policy: string, q: nat)
    requires Token(policy) && At(s, e, " policy=") && At(s, q, policy)
    requires q == e + 8 && q + |policy| == |s|
    ensures PolicyTail(s, e) == Some(q) && s[q..] == policy
  {
    AtChar(s, e, " policy=", 0);
    AtChar(s, e, " policy=", 1);
    RunExact(s, e, e + 1, Blank);
    assert s[e + 1..q] == s[e..q][1..];
    RunOver(s, q, policy, NonBlank);
    PolicyTailFrom(s, e, q);
    assert s[q..] == s[q..q + |policy|];
  }

  /** No shorter message is followed by a policy tail: the `\s+` of a tail
      starting at `j` ends at the latest at the non-blank before `e`, and then
      either `policy=` would have to cover the blank at `e`, or its `\S+`
      would have to run across it. */
  lemma NoPolicyBefore(s: string, j: nat, e: nat)
    requires j < e < |s| && s[e] == ' ' && In(s[e - 1], NonBlank)
    ensures PolicyTail(s, j).None?
  {
    var g := Run(s, j, Blank);
    RunStops(s, j, e - 1, Blank);
    if g + 7 <= e {
      RunStops(s, g + 7, e, NonBlank);
    } else if g + 7 < |s| {
      assert s[g..g + 7][e - g] == s[e];
    }
  }

  /** The lazy quantifier stops at `e` when every earlier end was rejected. */
  lemma {:induction false} LazyMsgReaches(s: string, k: nat, e: nat)
    requires k <= e <= |s| && PolicyTail(s, e).Some?
    requires forall j :: k <= j < e ==> IsDotChar(s[j]) && PolicyTail(s, j).None?
    ensures LazyMsg(s, k) == Some(e)
    decreases e - k
  {
    if k < e {
      LazyMsgReaches(s, k + 1, e);
    }
  }

  lemma MsgBody(s: string, msg: string, k: nat, e: nat, q: nat)
    requires Message(msg) && At(s, k, msg) && e == k + |msg| && q == e + 8 < |s|
    requires At(s, e, " policy=") && PolicyTail(s, e) == Some(q)
    ensures LazyMsg(s, k) == Some(e) && s[k..e] == msg
  {
    AtChar(s, e, " policy=", 0);
    AtChar(s, e, " policy=", 1);
    forall j | k <= j < e
      ensures IsDotChar(s[j]) && PolicyTail(s, j).None?
    {
      AtChar(s, k, msg, j - k);
      assert In(msg[j - k], Dot);
      AtChar(s, k, msg, |msg| - 1);
      NoPolicyBefore(s, j, e);
    }
    LazyMsgReaches(s, k, e);
  }

  lemma MsgPolicyFrom(s: string, i: nat, k: nat, e: nat, q: nat, msg: string, policy: string)
    requires i <= |s| && Run(s, i, Blank) == i + 1 && k == i + 5 <= |s| && s[i + 1..k] == "msg="
    requires LazyMsg(s, k) == Some(e) && PolicyTail(s, e) == Some(q)
    requires s[k..e] == msg && s[q..] == policy
    ensures MsgPolicy(s, i) == Some((msg, policy))
  {
  }

  /** A message and a policy of the shapes the pattern allows are read back
      exactly, however many "policy=" the message itself holds. */
  lemma MsgPolicyRoundTrip(s: string, i: nat, msg: string, policy: string)
    requires Message(msg) && Token(policy)
    requires At(s, i, MsgText(msg, policy)) && i + |MsgText(msg, policy)| == |s|
    ensures MsgPolicy(s, i) == Some((msg, policy))
  {
    var k := i + 5;
    var e := k + |msg|;
    var q := e + 8;
    MsgSplit(s, i, msg, policy, k, e, q);
    MsgHead(s, i);
    PolicyTailAt(s, e, policy, q);
    MsgBody(s, msg, k, e, q);
    MsgPolicyFrom(s, i, k, e, q, msg, policy);
  }

  // ---------------------------------------------------------------------------
  // The reason

  function ReasonText(reason: string): string
  {
    " reason=" + reason
  }

  lemma ReasonTailFrom(s: string, i: nat, q: nat)
    requires i + 1 <= |s| && Run(s, i, Blank) == i + 1 && q == i + 8 < |s|
    requires s[i + 1..q] == "reason=" && Run(s, q, Dot) == |s|
    ensures ReasonTail(s, i) == Some(s[q..])
  {
  }

  /** A non-empty reason without line terminators is read back exactly, blanks
      and all. */
  lemma ReasonRoundTrip(s: string, i: nat, reason: string)
    requires reason != [] && All(reason, Dot)
    requires At(s, i, ReasonText(reason)) && i + |ReasonText(reason)| == |s|
    ensures ReasonTail(s, i) == Some(reason)
  {
    var q := i + 8;
    AtSplit(s, i, " reason=", reason);
    AtChar(s, i, " reason=", 0);
    AtChar(s, i, " reason=", 1);
    RunExact(s, i, i + 1, Blank);
    assert s[i + 1..q] == s[i..q][1..];
    RunOver(s, q, reason, Dot);
    ReasonTailFrom(s, i, q);
    assert s[q..] == s[q..q + |reason|];
  }

  // ---------------------------------------------------------------------------
  // Whole firewall lines

  /** The groups read by `FirewallPieces`, in order. */
  function FirewallGroups(f: FirewallFields): (vs: seq<string>)
    ensures |vs| == |FirewallPieces|
  {
    [f.hostname, f.vendor, f.product, f.action, f.src, f.dst, f.spt, f.dpt, f.proto]
  }

  /** The firewall line a device would send for these fields, with single blanks
      between the parts. */
  function FirewallLine(st: Stamp, f: FirewallFields): string
  {
    StampText(st) + Joined(FirewallPieces, FirewallGroups(f)) + MsgText(f.msg, f.policy)
  }

  lemma DigitsAreToken(t: string)
    requires Digits(t)
    ensures Token(t)
  {
  }

  /** Letters, digits and the punctuation of keys, addresses and names: none
      is a blank or a line terminator. */
  predicate PlainChar(c: char)
  {
    ('a' <= c <= 'z') || ('A' <= c <= 'Z') || ('0' <= c <= '9')
    || c == '=' || c == '.' || c == '-' || c == ':' || c == '/' || c == '_'
  }

  lemma PlainNonBlank(k: string)
    requires forall i :: 0 <= i < |k| ==> PlainChar(k[i])
    ensures All(k, NonBlank) && All(k, Dot)
  {
  }

  lemma FirewallKeys()
    ensures KeysNonBlank(FirewallPieces)
  {
    forall j | 0 <= j < |FirewallPieces|
      ensures All(FirewallPieces[j].key, NonBlank)
    {
      PlainNonBlank(FirewallPieces[j].key);
    }
  }

  lemma FirewallGroupsValid(f: FirewallFields)
    requires FirewallShaped(f)
    ensures ValidGroups(FirewallPieces, FirewallGroups(f))
  {
    FirewallKeys();
    DigitsAreToken(f.spt);
    DigitsAreToken(f.dpt);
  }

  lemma MatchFirewallFrom(line: string, a: nat, b: nat, c: nat, f: FirewallFields)
    requires Header(line) == Some((a, b)) && line[a..b] == f.time
    requires ReadTokens(line, b, FirewallPieces) == Some((FirewallGroups(f), c))
    requires MsgPolicy(line, c) == Some((f.msg, f.policy))
    ensures MatchFirewall(line) == Some(f)
  {
  }

  /** The key-value groups of a firewall line are read back up to the
      message. */
  lemma FirewallBody(line: string, f: FirewallFields, body: string, tail: string, b: nat, c: nat)
    requires FirewallShaped(f)
    requires body == Joined(FirewallPieces, FirewallGroups(f)) && tail == MsgText(f.msg, f.policy)
    requires At(line, b, body) && c == b + |body| && At(line, c, tail) && c + |tail| == |line|
    ensures ReadTokens(line, b, FirewallPieces) == Some((FirewallGroups(f), c))
  {
    FirewallGroupsValid(f);
    AtChar(line, c, tail, 0);
    ReadTokensRoundTrip(line, b, FirewallPieces, FirewallGroups(f), c);
  }

  /** A firewall line given as its three parts is matched. */
  lemma FirewallParts(line: string, st: Stamp, f: FirewallFields, head: string, body: string, tail: string, b: nat, c: nat)
    requires ValidStamp(st) && f.time == TimeText(st) && FirewallShaped(f)
    requires head == StampText(st) && body == Joined(FirewallPieces, FirewallGroups(f)) && tail == MsgText(f.msg, f.policy)
    requires At(line, 0, head) && b == |head| && At(line, b, body) && c == b + |body|
    requires At(line, c, tail) && c + |tail| == |line|
    ensures MatchFirewall(line) == Some(f)
  {
    HeaderRoundTrip(line, st, |st.pri| + 2, b);
    FirewallBody(line, f, body, tail, b, c);
    MsgPolicyRoundTrip(line, c, f.msg, f.policy);
    MatchFirewallFrom(line, |st.pri| + 2, b, c, f);
  }

  /** Firewall round trip: a line built from a well-formed header and fields of
      the shapes the pattern allows is matched, and every group comes back
      exactly. */
  lemma FirewallRoundTrip(st: Stamp, f: FirewallFields)
    requires ValidStamp(st) && f.time == TimeText(st) && FirewallShaped(f)
    ensures MatchFirewall(FirewallLine(st, f)) == Some(f)
  {
    var line, head := FirewallLine(st, f), StampText(st);
    var body, tail := Joined(FirewallPieces, FirewallGroups(f)), MsgText(f.msg, f.policy);
    var b := |head|;
    var c := b + |body|;
    Split3(line, head, body, tail, b, c);
    FirewallParts(line, st, f, head, body, tail, b, c);
  }

  /** The whole of `parseFirewallLog` on such a line: the groups, the ports as
      the numbers their digits spell, "@timestamp" from the time text and the
      line itself as raw_log. */
  lemma ParseFirewallRoundTrip(st: Stamp, f: FirewallFields, toIso: string -> Option<string>)
    requires ValidStamp(st) && f.time == TimeText(st) && FirewallShaped(f)
    ensures ParseFirewallLog(FirewallLine(st, f), toIso) ==
      FirewallEntry(f.time, f.hostname, f.vendor, f.product, f.action, f.src, f.dst,
                    DigitsValue(f.spt), DigitsValue(f.dpt), f.proto, f.msg, f.policy,
                    toIso(f.time), FirewallLine(st, f))
  {
    FirewallRoundTrip(st, f);
  }

  // ---------------------------------------------------------------------------
  // Whole network lines

  function NetworkGroups(f: NetworkFields): (vs: seq<string>)
    ensures |vs| == |NetworkPieces|
  {
    [f.hostname, f.iface, f.event, f.mac]
  }

  function NetworkLine(st: Stamp, f: NetworkFields): string
  {
    StampText(st) + Joined(NetworkPieces, NetworkGroups(f)) + ReasonText(f.reason)
  }

  lemma NetworkKeys()
    ensures KeysNonBlank(NetworkPieces)
  {
    forall j | 0 <= j < |NetworkPieces|
      ensures All(NetworkPieces[j].key, NonBlank)
    {
      PlainNonBlank(NetworkPieces[j].key);
    }
  }

  lemma NetworkGroupsValid(f: NetworkFields)
    requires NetworkShaped(f)
    ensures ValidGroups(NetworkPieces, NetworkGroups(f))
  {
    NetworkKeys();
  }

  lemma MatchNetworkFrom(line: string, a: nat, b: nat, c: nat, f: NetworkFields)
    requires Header(line) == Some((a, b)) && line[a..b] == f.time
    requires ReadTokens(line, b, NetworkPieces) == Some((NetworkGroups(f), c))
    requires ReasonTail(line, c) == Some(f.reason)
    ensures MatchNetwork(line) == Some(f)
  {
  }

  /** The key-value groups of a network line are read back up to the
      reason. */
  lemma NetworkBody(line: string, f: NetworkFields, body: string, tail: string, b: nat, c: nat)
    requires NetworkShaped(f)
    requires body == Joined(NetworkPieces, NetworkGroups(f)) && tail == ReasonText(f.reason)
    requires At(line, b, body) && c == b + |body| && At(line, c, tail) && c + |tail| == |line|
    ensures ReadTokens(line, b, NetworkPieces) == Some((NetworkGroups(f), c))
  {
    NetworkGroupsValid(f);
    AtChar(line, c, tail, 0);
    ReadTokensRoundTrip(line, b, NetworkPieces, NetworkGroups(f), c);
  }

  /** A network line given as its three parts is matched. */
  lemma NetworkParts(line: string, st: Stamp, f: NetworkFields, head: string, body: string, tail: string, b: nat, c: nat)
    requires ValidStamp(st) && f.time == TimeText(st) && NetworkShaped(f)
    requires head == StampText(st) && body == Joined(NetworkPieces, NetworkGroups(f)) && tail == ReasonText(f.reason)
    requires At(line, 0, head) && b == |head| && At(line, b, body) && c == b + |body|
    requires At(line, c, tail) && c + |tail| == |line|
    ensures MatchNetwork(line) == Some(f)
  {
    HeaderRoundTrip(line, st, |st.pri| + 2, b);
    NetworkBody(line, f, body, tail, b, c);
    ReasonRoundTrip(line, c, f.reason);
    MatchNetworkFrom(line, |st.pri| + 2, b, c, f);
  }

  /** Network round trip: the groups of a well-formed network line come back
      exactly, the reason with all its blanks. */
  lemma NetworkRoundTrip(st: Stamp, f: NetworkFields)
    requires ValidStamp(st) && f.time == TimeText(st) && NetworkShaped(f)
    ensures MatchNetwork(NetworkLine(st, f)) == Some(f)
  {
    var line, head := NetworkLine(st, f), StampText(st);
    var body, tail := Joined(NetworkPieces, NetworkGroups(f)), ReasonText(f.reason);
    var b := |head|;
    var c := b + |body|;
    Split3(line, head, body, tail, b, c);
    NetworkParts(line, st, f, head, body, tail, b, c);
  }


  lemma ParseNetworkRoundTrip(st: Stamp, f: NetworkFields, toIso: string -> Option<string>)
    requires ValidStamp(st) && f.time == TimeText(st) && NetworkShaped(f)
    ensures ParseNetworkLog(NetworkLine(st, f), toIso) ==
      NetworkEntry(f.time, f.hostname, f.iface, f.event, f.mac, f.reason, toIso(f.time),
                   NetworkLine(st, f))
  {
    NetworkRoundTrip(st, f);
  }
}
