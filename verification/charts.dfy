/** The `useMemo` computations of the dashboard charts: three top-k bar and
    doughnut charts over a count dictionary, and the 24-bucket timeline. */
module Charts {
  import opened Common
  import opened Seqs
  import opened Sorting
  import opened Tally
  import opened ClientRows
  import opened DateBounds

  /** The dictionary key of a property the chart counts only when truthy:
      `if (row.key) counts[row.key] = ...`. */
  function TruthyKey(v: Value): Option<string>
  {
    if Truthy(v) then Some(ToStr(v)) else None
  }

  function IpKey(row: Row): Option<string> { TruthyKey(Field(row, "src_ip")) }

  function UserKey(row: Row): Option<string> { TruthyKey(Field(row, "user")) }

  /** A network or firewall row without an event type is skipped; any other
      row counts under its event type, or 'Unknown' when that is falsy. */
  function EventKey(row: Row): Option<string>
  {
    var source := Field(row, "source");
    var eventType := Field(row, "event_type");
    if (source == Str("network") || source == Str("firewall")) && !Truthy(eventType) then None
    else if Truthy(eventType) then Some(ToStr(eventType))
    else Some("Unknown")
  }

  /** What a top-`n` chart promises about its `labels` and `data`: as many
      labels as counts and at most `n`, each label a counted key with its
      number of occurrences, no label twice, counts non-increasing, and no
      key left out counted more often than a key shown. */
  ghost predicate IsTopChart(keys: seq<Option<string>>, n: nat, labels: seq<string>, data: seq<nat>)
  {
    && |labels| == |data| <= n
    && (forall i :: 0 <= i < |labels| ==> Some(labels[i]) in keys && data[i] == Occurrences(keys, labels[i]) >= 1)
    && (forall i, j :: 0 <= i < j < |labels| ==> labels[i] != labels[j] && data[i] >= data[j])
    && (forall k, i :: Some(k) in keys && k !in labels && 0 <= i < |data| ==> data[i] >= Occurrences(keys, k))
    && (|labels| < n ==> forall k :: Some(k) in keys ==> k in labels)
  }

  /** `Object.entries(counts).sort(...).slice(0, n)`, then its labels and its
      counts, after the `forEach` that fills `counts`. */
  method TopChart(keys: seq<Option<string>>, n: nat) returns (labels: seq<string>, data: seq<nat>)
    ensures IsTopChart(keys, n, labels, data)
  {
    var counts := CountKeys(keys);
    var top := Top(counts, n);
    labels := Labels(top);
    data := Counts(top);
    TopChartShown(keys, n);
    TopChartOrdered(keys, n);
    TopChartLeftOut(keys, n);
  }

  /** The entries shown: counted keys, each with its number of occurrences. */
  lemma TopChartShown(keys: seq<Option<string>>, n: nat)
    ensures var top := Top(TallyOf(keys), n);
      && |Labels(top)| == |Counts(top)| <= n
      && (forall i :: 0 <= i < |top| ==>
            Some(Labels(top)[i]) in keys && Counts(top)[i] == Occurrences(keys, Labels(top)[i]) >= 1)
  {
    var counts := TallyOf(keys);
    var top := Top(counts, n);
    TallyCorrect(keys);
    TopCorrect(counts, n);
    forall i | 0 <= i < |top|
      ensures Some(Labels(top)[i]) in keys
    {
      assert top[i] in counts;
      LabelsMembers(counts, top[i].key);
    }
  }

  /** The entries shown have distinct labels, largest count first. */
  lemma TopChartOrdered(keys: seq<Option<string>>, n: nat)
    ensures var top := Top(TallyOf(keys), n);
      forall i, j :: 0 <= i < j < |top| ==> Labels(top)[i] != Labels(top)[j] && Counts(top)[i] >= Counts(top)[j]
  {
    TallyDistinct(keys);
    TopOrdered(TallyOf(keys), n);
    LabelsCountsOrdered(Top(TallyOf(keys), n));
  }

  lemma LabelsCountsOrdered(top: seq<Entry>)
    requires DistinctKeys(top)
    requires forall i, j :: 0 <= i < j < |top| ==> top[i].count >= top[j].count
    ensures forall i, j :: 0 <= i < j < |top| ==> Labels(top)[i] != Labels(top)[j] && Counts(top)[i] >= Counts(top)[j]
  {
  }

  /** The keys left out: none counted more often than a key shown, and none
      at all when fewer than `n` are shown. */
  lemma TopChartLeftOut(keys: seq<Option<string>>, n: nat)
    ensures var top := Top(TallyOf(keys), n);
      && (forall k, i :: Some(k) in keys && k !in Labels(top) && 0 <= i < |top| ==>
            Counts(top)[i] >= Occurrences(keys, k))
      && (|top| < n ==> forall k :: Some(k) in keys ==> k in Labels(top))
  {
    var counts := TallyOf(keys);
    var top := Top(counts, n);
    TallyCorrect(keys);
    TopCorrect(counts, n);
    var labels := Labels(top);
    forall k, i | Some(k) in keys && k !in labels && 0 <= i < |top|
      ensures Counts(top)[i] >= Occurrences(keys, k)
    {
      LabelsMembers(counts, k);
      var e :| e in counts && e.key == k;
      assert e !in top by {
        LabelsMembers(top, k);
      }
      assert top[i] in top;
    }
    if |top| < n {
      forall k | Some(k) in keys
        ensures k in labels
      {
        LabelsMembers(counts, k);
        var e :| e in counts && e.key == k;
        TopKeepsAll(counts, n, e);
        LabelsMembers(top, k);
      }
    }
  }

  /** A top-`n` that holds fewer than `n` entries holds all of them. */
  lemma TopKeepsAll(t: seq<Entry>, n: nat, e: Entry)
    requires |Top(t, n)| < n && e in t
    ensures e in Top(t, n)
  {
    SortByMembers(t, ByCountDesc, e);
  }

  /** `TopIPChart`: the ten most frequent source IPs. */
  method TopIpChart(logs: seq<Row>) returns (labels: seq<string>, data: seq<nat>)
    ensures IsTopChart(KeysOf(logs, IpKey), 10, labels, data)
  {
    labels, data := TopChart(KeysOf(logs, IpKey), 10);
  }

  /** `TopUserChart`: the ten most frequent users. */
  method TopUserChart(logs: seq<Row>) returns (labels: seq<string>, data: seq<nat>)
    ensures IsTopChart(KeysOf(logs, UserKey), 10, labels, data)
  {
    labels, data := TopChart(KeysOf(logs, UserKey), 10);
  }

  /** `TopEventTypeChart`: the eight most frequent event types. */
  method TopEventTypeChart(logs: seq<Row>) returns (labels: seq<string>, data: seq<nat>)
    ensures IsTopChart(KeysOf(logs, EventKey), 8, labels, data)
  {
    labels, data := TopChart(KeysOf(logs, EventKey), 8);
  }

  /** A row counted in a chart over a truthy property is counted under that
      property's text, and a row whose property is falsy is not counted. */
  lemma IpCounted(logs: seq<Row>, i: nat)
    requires i < |logs|
    ensures Truthy(Field(logs[i], "src_ip")) ==> Some(ToStr(Field(logs[i], "src_ip"))) in KeysOf(logs, IpKey)
    ensures KeysOf(logs, IpKey)[i].None? <==> !Truthy(Field(logs[i], "src_ip"))
  {
  }

  /** Only network and firewall rows without an event type are skipped. */
  lemma EventTypeSkips(row: Row)
    ensures EventKey(row).None? <==>
      (Field(row, "source") == Str("network") || Field(row, "source") == Str("firewall"))
      && !Truthy(Field(row, "event_type"))
  {
  }

  // ---------------------------------------------------------------------------
  // The timeline

  /** `new Date(ts).getHours()` of a valid date. */
  function HourOf(d: Instant): (h: nat)
    ensures h < 24
  {
    d.ms / HourMillis
  }

  /** `h.toString().padStart(2, '0') + ':00'` */
  function HourLabel(h: nat): string
    requires h < 24
  {
    var digits := NatToDecimal(h);
    (if |digits| < 2 then "0" + digits else digits) + ":00"
  }

  /** Every label is two digits that read back as its hour, then ":00". */
  lemma HourLabelReadsBack(h: nat)
    requires h < 24
    ensures |HourLabel(h)| == 5 && HourLabel(h)[2..] == ":00"
    ensures All(HourLabel(h)[..2], Digit) && DigitsValue(HourLabel(h)[..2]) == h
  {
    var digits := NatToDecimal(h);
    DigitsValueOfDecimal(h);
    if h < 10 {
      var two := "0" + digits;
      assert two[..1] == "0";
      assert DigitsValue("0") == 0;
      assert HourLabel(h)[..2] == two;
    } else {
      assert |digits| == 2;
      assert HourLabel(h)[..2] == digits;
    }
  }

  /** The row falls in hour `h`: a truthy timestamp that is a valid date. */
  predicate InHour(toDate: Value -> Option<Instant>, h: nat, row: Row)
  {
    Truthy(Field(row, "timestamp")) && RowDate(row, toDate).Some? && HourOf(RowDate(row, toDate).value) == h
  }

  /** The row is counted at all. */
  predicate Dated(toDate: Value -> Option<Instant>, row: Row)
  {
    Truthy(Field(row, "timestamp")) && RowDate(row, toDate).Some?
  }

  function InHourOf(toDate: Value -> Option<Instant>, h: nat): Row -> bool
  {
    (row: Row) => InHour(toDate, h, row)
  }

  function DatedBy(toDate: Value -> Option<Instant>): Row -> bool
  {
    (row: Row) => Dated(toDate, row)
  }

  /** `counts` holds, hour by hour, how many of `rows` fall in that hour,
      and adds up to the rows with a valid date. */
  ghost predicate Buckets(rows: seq<Row>, toDate: Value -> Option<Instant>, counts: seq<nat>)
  {
    && |counts| == 24
    && (forall h :: 0 <= h < 24 ==> counts[h] == Count(rows, InHourOf(toDate, h)))
    && Sum(counts) == Count(rows, DatedBy(toDate))
  }

  /** What one turn of the `forEach` does to the buckets. */
  function Tick(counts: seq<nat>, toDate: Value -> Option<Instant>, row: Row): (r: seq<nat>)
    requires |counts| == 24
    ensures |r| == 24
  {
    if Dated(toDate, row) then
      var h := HourOf(RowDate(row, toDate).value);
      counts[h := counts[h] + 1]
    else counts
  }

  /** One more row keeps the buckets right. */
  lemma TickKeepsBuckets(rows: seq<Row>, toDate: Value -> Option<Instant>, counts: seq<nat>, row: Row)
    requires Buckets(rows, toDate, counts)
    ensures Buckets(rows + [row], toDate, Tick(counts, toDate, row))
  {
    forall h | 0 <= h < 24
      ensures Count(rows + [row], InHourOf(toDate, h)) ==
        Count(rows, InHourOf(toDate, h)) + (if InHour(toDate, h, row) then 1 else 0)
    {
      CountSnoc(rows, row, InHourOf(toDate, h));
    }
    CountSnoc(rows, row, DatedBy(toDate));
    if Dated(toDate, row) {
      SumIncrement(counts, HourOf(RowDate(row, toDate).value));
    }
  }

  /** `TimelineChart`: the `forEach` that fills `hourCounts`, then the 24
      labels and the 24 counts, `hourCounts[h] || 0`. An invalid date gives
      the hour `NaN`, which no bucket reads. */
  method Timeline(logs: seq<Row>, toDate: Value -> Option<Instant>) returns (labels: seq<string>, data: seq<nat>)
    ensures |labels| == 24 && |data| == 24
    ensures forall h :: 0 <= h < 24 ==> labels[h] == HourLabel(h)
    ensures forall h :: 0 <= h < 24 ==> data[h] == Count(logs, InHourOf(toDate, h))
    ensures Sum(data) == Count(logs, DatedBy(toDate))
  {
    var counts := seq(24, h => 0);
    assert Sum(counts) == 0 by { ZeroSum(counts); }
    for i := 0 to |logs|
      invariant Buckets(logs[..i], toDate, counts)
    {
      var row := logs[i];
      PrefixSnoc(logs, i);
      TickKeepsBuckets(logs[..i], toDate, counts, row);
      if Truthy(Field(row, "timestamp")) {
        var d := toDate(Field(row, "timestamp"));
        if d.Some? {
          var h := HourOf(d.value);
          counts := counts[h := counts[h] + 1];
        }
      }
    }
    assert logs[..|logs|] == logs;
    labels := seq(24, h requires 0 <= h < 24 => HourLabel(h));
    data := counts;
  }

  lemma {:induction false} ZeroSum(s: seq<nat>)
    requires forall i :: 0 <= i < |s| ==> s[i] == 0
    ensures Sum(s) == 0
  {
    if s != [] {
      ZeroSum(s[1..]);
    }
  }
}
