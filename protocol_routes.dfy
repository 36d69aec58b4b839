// The protocol analysis API (routes/protocol_analysis.py): the protocol
// distribution over a time range, the distribution of TCP flag combinations,
// and per-protocol byte counts bucketed over time.

module ProtocolRoutes {
  import opened Common
  import opened Sorting
  import opened Grouping
  import ProtocolDissection
  import PacketCapture

  const SECONDS_PER_MINUTE: int := 60

  // ---------------------------------------------------------------- time ranges

  /** The hours of history a `time_range` parameter selects; anything unrecognised means one hour. */
  function WindowHours(timeRange: string): nat
  {
    if timeRange == "1h" then 1
    else if timeRange == "6h" then 6
    else if timeRange == "24h" then 24
    else if timeRange == "7d" then 7 * 24
    else 1
  }

  /** The earliest timestamp a handler asks the database for. */
  function StartTime(now: Time, timeRange: string): (start: Time)
    ensures now - 7 * 24 * SECONDS_PER_HOUR <= start <= now - SECONDS_PER_HOUR
  {
    now - WindowHours(timeRange) * SECONDS_PER_HOUR
  }

  /** The four ranges are nested, and an unknown range is the one-hour range. */
  lemma WindowsNested(now: Time, timeRange: string)
    ensures StartTime(now, "7d") < StartTime(now, "24h") < StartTime(now, "6h") < StartTime(now, "1h")
    ensures timeRange !in {"6h", "24h", "7d"} ==> StartTime(now, timeRange) == StartTime(now, "1h")
  {
  }

  /** The bucket width in minutes protocol-over-time uses for a range and a requested interval. */
  function GroupMinutes(timeRange: string, interval: string): (g: nat)
    ensures g in {1, 5, 10, 30, 60}
    ensures g > 0 && 60 % g == 0
  {
    if timeRange == "1h" then (if interval == "1m" then 1 else 5)
    else if timeRange == "6h" then (if interval == "5m" then 5 else if interval == "10m" then 10 else 30)
    else if timeRange == "24h" then (if interval == "10m" then 10 else if interval == "30m" then 30 else 60)
    else if timeRange == "7d" then 60
    else 5
  }

  /**
   * Whatever interval is asked for, a range is cut into at most 168 buckets;
   * an unknown range ignores the interval and uses five-minute buckets, so it
   * differs from "1h" exactly when one-minute buckets are asked for.
   */
  lemma GroupingBounds(timeRange: string, interval: string)
    ensures WindowHours(timeRange) * 60 <= 168 * GroupMinutes(timeRange, interval)
    ensures timeRange !in {"1h", "6h", "24h", "7d"} ==>
      GroupMinutes(timeRange, interval) == 5 &&
      (GroupMinutes(timeRange, interval) == GroupMinutes("1h", interval) <==> interval != "1m")
  {
  }

  /** `timestamp.replace(second=0, microsecond=0, minute=(minute // g) * g)`, on whole seconds. */
  function RoundDown(t: Time, g: nat): Time
    requires g > 0
  {
    var minute := (t % SECONDS_PER_HOUR) / SECONDS_PER_MINUTE;
    t - t % SECONDS_PER_HOUR + (minute / g) * g * SECONDS_PER_MINUTE
  }

  lemma MulSmall(d: int, m: int)
    requires m > 0 && -m < d * m < m
    ensures d == 0
  {
  }

  /** Euclidean division by a positive number has one quotient and remainder. */
  lemma ModUnique(t: int, m: int, q: int, r: int)
    requires m > 0 && 0 <= r < m && t == q * m + r
    ensures t / m == q && t % m == r
  {
    var q0, r0 := t / m, t % m;
    assert t == q0 * m + r0;
    assert (q - q0) * m == r0 - r;
    MulSmall(q - q0, m);
  }

  /**
   * Since the bucket width divides an hour, rounding the minute down is rounding
   * the time down to a multiple of the width: the bucket starts at or before the
   * time, less than one width before it, on a multiple of the width.
   */
  lemma {:induction false} RoundDownIsFloor(t: Time, g: nat)
    requires g > 0 && 60 % g == 0
    ensures RoundDown(t, g) == t - t % (SECONDS_PER_MINUTE * g)
    ensures RoundDown(t, g) <= t < RoundDown(t, g) + SECONDS_PER_MINUTE * g
    ensures RoundDown(t, g) % (SECONDS_PER_MINUTE * g) == 0
  {
    var h, rem := t / 3600, t % 3600;
    var m, s := rem / 60, rem % 60;
    var q, r := m / g, m % g;
    var k := 60 / g;
    var w := 60 * g;
    var Q := k * h + q;
    var qg := q * g;
    assert m == qg + r;
    assert 60 == k * g;
    Regroup(h, q, k, g, Q, w);
    var rd := RoundDown(t, g);
    assert rd == 3600 * h + 60 * qg;
    assert rd == Q * w;
    assert t == rd + (60 * r + s);
    ModUnique(t, w, Q, 60 * r + s);
    ModUnique(rd, w, Q, 0);
  }

  lemma Regroup(h: int, q: int, k: int, g: int, Q: int, w: int)
    requires k * g == 60 && Q == k * h + q && w == 60 * g
    ensures 3600 * h + 60 * (q * g) == Q * w
  {
    calc {
      Q * w;
      (k * h + q) * (60 * g);
      60 * (k * g) * h + 60 * (q * g);
      3600 * h + 60 * (q * g);
    }
  }

  function HourOf(t: Time): int { t / SECONDS_PER_HOUR }
  function MinuteOf(t: Time): int { (t % SECONDS_PER_HOUR) / SECONDS_PER_MINUTE }
  function SecondOf(t: Time): int { t % SECONDS_PER_MINUTE }

  /**
   * The bucket keeps the hour, zeroes the seconds and sets the minute to
   * (minute div g) * g: at most the minute, a multiple of g, less than g below it.
   */
  lemma {:induction false} BucketFields(t: Time, g: nat)
    requires g > 0 && 60 % g == 0
    ensures var rd := RoundDown(t, g);
      HourOf(rd) == HourOf(t) && SecondOf(rd) == 0 &&
      MinuteOf(rd) == (MinuteOf(t) / g) * g &&
      MinuteOf(rd) <= MinuteOf(t) < MinuteOf(rd) + g && MinuteOf(rd) % g == 0
  {
    var h, m := t / 3600, MinuteOf(t);
    var q := m / g;
    var qg := q * g;
    assert 0 <= qg <= m < qg + g && m < 60 by {
      assert m == qg + m % g;
      assert q >= 0;
    }
    var rd := RoundDown(t, g);
    assert rd == 3600 * h + 60 * qg by {
      assert t - t % 3600 == 3600 * h;
    }
    ModUnique(rd, 3600, h, 60 * qg);
    ModUnique(60 * qg, 60, qg, 0);
    ModUnique(rd, 60, 60 * h + qg, 0);
    ModUnique(qg, g, q, 0);
  }

  /** The rows of a query result taken at or after `start`, in their order. */
  function Since<R(!new)>(rows: seq<R>, time: R -> Time, start: Time): (r: seq<R>)
    ensures forall x :: x in r <==> x in rows && time(x) >= start
  {
    if rows == [] then []
    else
      var last := rows[|rows| - 1];
      Since(rows[..|rows| - 1], time, start) + (if time(last) >= start then [last] else [])
  }

  // ------------------------------------------------------- protocol distribution

  /** A ProtocolDistribution row. */
  datatype ShareRow = ShareRow(timestamp: Time, protocol: string, packetCount: nat, byteCount: nat)

  /** One protocol of the distribution response. */
  datatype ProtocolShare = ProtocolShare(protocol: string, packetCount: int, byteCount: int, percentage: real)

  /** The running sums the handlers keep per dict key. */
  datatype Totals = Totals(packets: int, bytes: int)

  function RowTime(r: ShareRow): Time { r.timestamp }
  function RowProtocol(r: ShareRow): string { r.protocol }
  function RowPackets(r: ShareRow): int { r.packetCount }
  function RowBytes(r: ShareRow): int { r.byteCount }
  function Newest(r: ShareRow): real { r.timestamp as real }
  function Oldest(r: ShareRow): real { -(r.timestamp as real) }
  function Percentage(s: ProtocolShare): real { s.percentage }
  function ShareBytes(s: ProtocolShare): int { s.byteCount }

  /** The bytes the rows hold for each protocol. */
  function BytesFor(rows: seq<ShareRow>): string -> int
  {
    Summer(rows, RowProtocol, RowBytes)
  }

  /** `total_bytes`: the byte sums of the protocols, added up. */
  function GroupedBytes(rows: seq<ShareRow>): int
  {
    SumBy(DistinctKeys(rows, RowProtocol), BytesFor(rows))
  }

  /** The rows protocol-distribution reads: those since `start`, newest first. */
  function NewestFirst(table: seq<ShareRow>, start: Time): seq<ShareRow>
  {
    Sort(Since(table, RowTime, start), DescendingBy(Newest))
  }

  /** The entry for protocol `p`, given the byte total over all protocols. */
  function ShareOf(rows: seq<ShareRow>, total: int, p: string): ProtocolShare
  {
    var bytes := SumWhere(rows, RowProtocol, p, RowBytes);
    ProtocolShare(p, SumWhere(rows, RowProtocol, p, RowPackets), bytes,
      if total > 0 then (bytes as real / total as real) * 100.0 else 0.0)
  }

  function ShareMaker(rows: seq<ShareRow>, total: int): string -> ProtocolShare
  {
    p => ShareOf(rows, total, p)
  }

  /** The entries before sorting, one per protocol in order of first appearance. */
  function Shares(rows: seq<ShareRow>): seq<ProtocolShare>
  {
    MapSeq(DistinctKeys(rows, RowProtocol), ShareMaker(rows, GroupedBytes(rows)))
  }

  /** The response's protocol list: the entries by percentage, highest first, ties in dict order. */
  function Distribution(rows: seq<ShareRow>): seq<ProtocolShare>
  {
    Sort(Shares(rows), DescendingBy(Percentage))
  }

  /** The loop of protocol_distribution that fills the dict of per-protocol sums. */
  method AggregateByProtocol(rows: seq<ShareRow>) returns (keys: seq<string>, data: map<string, Totals>)
    ensures keys == DistinctKeys(rows, RowProtocol)
    ensures forall p :: p in data <==> p in keys
    ensures forall p :: p in data ==>
      data[p] == Totals(SumWhere(rows, RowProtocol, p, RowPackets), SumWhere(rows, RowProtocol, p, RowBytes))
  {
    keys, data := [], map[];
    for i := 0 to |rows|
      invariant keys == DistinctKeys(rows[..i], RowProtocol)
      invariant forall p :: p in data <==> p in keys
      invariant forall p :: p in data ==>
        data[p] == Totals(SumWhere(rows[..i], RowProtocol, p, RowPackets), SumWhere(rows[..i], RowProtocol, p, RowBytes))
    {
      var proto := rows[i];
      assert rows[..i + 1][..i] == rows[..i];
      if proto.protocol !in data {
        DistinctKeysMembers(rows[..i], RowProtocol, proto.protocol);
        SumWhereAbsent(rows[..i], RowProtocol, proto.protocol, RowPackets);
        SumWhereAbsent(rows[..i], RowProtocol, proto.protocol, RowBytes);
        data := data[proto.protocol := Totals(0, 0)];
        keys := keys + [proto.protocol];
      }
      var sums := data[proto.protocol];
      data := data[proto.protocol := Totals(sums.packets + proto.packetCount, sums.bytes + proto.byteCount)];
    }
    assert rows[..|rows|] == rows;
  }

  /** `sum(data['byte_count'] for data in protocol_data.values())`. */
  method TotalBytes(keys: seq<string>, data: map<string, Totals>, ghost bytes: string -> int) returns (total: int)
    requires forall p :: p in keys ==> p in data && data[p].bytes == bytes(p)
    ensures total == SumBy(keys, bytes)
  {
    total := 0;
    for j := 0 to |keys|
      invariant total == SumBy(keys[..j], bytes)
    {
      assert keys[..j + 1][..j] == keys[..j];
      total := total + data[keys[j]].bytes;
    }
    assert keys[..|keys|] == keys;
  }

  /** protocol_distribution: aggregate the rows per protocol, work out percentages, sort. */
  method ProtocolDistribution(timeRange: string, now: Time, table: seq<ShareRow>)
    returns (protocols: seq<ProtocolShare>)
    ensures protocols == Distribution(NewestFirst(table, StartTime(now, timeRange)))
  {
    var rows := NewestFirst(table, StartTime(now, timeRange));
    var keys, data := AggregateByProtocol(rows);
    var totalBytes := TotalBytes(keys, data, BytesFor(rows));
    var result := seq(|keys|, i requires 0 <= i < |keys| =>
      ProtocolShare(keys[i], data[keys[i]].packets, data[keys[i]].bytes,
        if totalBytes > 0 then (data[keys[i]].bytes as real / totalBytes as real) * 100.0 else 0.0));
    var shares := Shares(rows);
    assert |result| == |shares|;
    forall i | 0 <= i < |result|
      ensures result[i] == shares[i]
    {
      assert data[keys[i]] == Totals(SumWhere(rows, RowProtocol, keys[i], RowPackets), SumWhere(rows, RowProtocol, keys[i], RowBytes));
    }
    assert result == shares;
    protocols := Sort(result, DescendingBy(Percentage));
  }

  function ShareProtocol(s: ProtocolShare): string { s.protocol }

  /** The distribution is ordered by percentage, highest first, and rearranges the per-protocol entries. */
  lemma DistributionSorted(rows: seq<ShareRow>)
    ensures Sorted(Distribution(rows), DescendingBy(Percentage))
    ensures multiset(Distribution(rows)) == multiset(Shares(rows))
  {
    DescendingByIsPreorder(Percentage);
    SortCorrect(Shares(rows), DescendingBy(Percentage));
  }

  /** Each protocol that occurs in the rows is listed exactly once, and no other is. */
  lemma DistributionOnePerProtocol(rows: seq<ShareRow>)
    ensures var d := Distribution(rows);
      (forall i, j :: 0 <= i < j < |d| ==> d[i].protocol != d[j].protocol) &&
      (forall p :: (exists i :: 0 <= i < |d| && d[i].protocol == p) <==> HasKey(rows, RowProtocol, p))
  {
    var ks := DistinctKeys(rows, RowProtocol);
    var d := Distribution(rows);
    LabelledPermutation(ks, ShareMaker(rows, GroupedBytes(rows)), ShareProtocol, d);
    forall p
      ensures (exists i :: 0 <= i < |d| && d[i].protocol == p) <==> HasKey(rows, RowProtocol, p)
    {
      DistinctKeysMembers(rows, RowProtocol, p);
    }
  }

  /** The byte counts of the distribution add up to the bytes of all the rows. */
  lemma DistributionBytesTotal(rows: seq<ShareRow>)
    ensures SumBy(Distribution(rows), ShareBytes) == SumBy(rows, RowBytes)
    ensures GroupedBytes(rows) == SumBy(rows, RowBytes)
  {
    var ks := DistinctKeys(rows, RowProtocol);
    var maker := ShareMaker(rows, GroupedBytes(rows));
    SumByPermutation(Distribution(rows), Shares(rows), ShareBytes);
    SumByMap(ks, maker, ShareBytes);
    SumByExtensional(ks, Composed(maker, ShareBytes), BytesFor(rows));
    GroupTotals(rows, RowProtocol, RowBytes);
  }

  lemma RatioAtMostOne(a: real, b: real)
    requires 0.0 <= a <= b && b > 0.0
    ensures 0.0 <= a / b <= 1.0
  {
  }

  /** Every percentage lies between 0 and 100, and all are 0 when the rows carry no bytes. */
  lemma PercentagesBounded(rows: seq<ShareRow>, i: nat)
    requires i < |Distribution(rows)|
    ensures 0.0 <= Distribution(rows)[i].percentage <= 100.0
    ensures SumBy(rows, RowBytes) == 0 ==> Distribution(rows)[i].percentage == 0.0
  {
    var ks := DistinctKeys(rows, RowProtocol);
    var total := GroupedBytes(rows);
    var d := Distribution(rows);
    LabelledPermutation(ks, ShareMaker(rows, total), ShareProtocol, d);
    var p := d[i].protocol;
    assert d[i] == ShareOf(rows, total, p);
    DistributionBytesTotal(rows);
    SumWhereBounds(rows, RowProtocol, p, RowBytes);
    if total > 0 {
      RatioAtMostOne(SumWhere(rows, RowProtocol, p, RowBytes) as real, total as real);
    }
  }

  // --------------------------------------------------------- TCP flag analysis

  /** One flag combination of the tcp-flags response. */
  datatype FlagShare = FlagShare(flags: string, count: int, description: string)

  function Itself(s: string): string { s }
  function One(s: string): int { 1 }
  function ShareCount(s: FlagShare): real { s.count as real }
  function FlagShareCount(s: FlagShare): int { s.count }
  function ShareFlags(s: FlagShare): string { s.flags }

  /** The flag strings of the TCP packets since `start` that carry flags, in table order. */
  function TcpFlagStrings(table: seq<PacketCapture.PacketRow>, start: Time): (flags: seq<string>)
    ensures |flags| <= |table|
  {
    if table == [] then []
    else
      var p := table[|table| - 1];
      TcpFlagStrings(table[..|table| - 1], start) +
        (if p.protocol == Some("TCP") && p.timestamp >= start && p.tcpFlags.Some? then [p.tcpFlags.value] else [])
  }

  /** The entry of one flag combination: how often it occurs and its description. */
  function FlagShareOf(flags: seq<string>, f: string): FlagShare
  {
    FlagShare(f, SumWhere(flags, Itself, f, One), ProtocolDissection.DescribeFlags(f))
  }

  function FlagMaker(flags: seq<string>): string -> FlagShare
  {
    f => FlagShareOf(flags, f)
  }

  /** The response's list: one entry per combination, most frequent first, ties in dict order. */
  function FlagDistribution(flags: seq<string>): seq<FlagShare>
  {
    Sort(MapSeq(DistinctKeys(flags, Itself), FlagMaker(flags)), DescendingBy(ShareCount))
  }

  /** The description table of the route's own copy of get_tcp_flags_description. */
  const ROUTE_FLAG_DESCRIPTIONS: map<char, string> := map[
    'S' := "SYN - Connection establishment",
    'A' := "ACK - Acknowledgment",
    'F' := "FIN - Connection termination",
    'R' := "RST - Connection reset",
    'P' := "PSH - Push data",
    'U' := "URG - Urgent data",
    'E' := "ECE - ECN-Echo",
    'C' := "CWR - Congestion Window Reduced"
  ]

  /** The route's copy of the description table is the dissector's, so both describe flags alike. */
  lemma RouteDescriptionsAreDissectorDescriptions()
    ensures ROUTE_FLAG_DESCRIPTIONS == ProtocolDissection.FLAG_DESCRIPTIONS
    ensures ProtocolDissection.UNKNOWN_FLAGS == "Unknown flag combination"
  {
  }

  /** The loop of tcp_flags_analysis that counts each flag combination. */
  method CountFlagCombinations(packets: seq<string>) returns (keys: seq<string>, flagCounts: map<string, int>)
    ensures keys == DistinctKeys(packets, Itself)
    ensures forall f :: f in flagCounts <==> f in keys
    ensures forall f :: f in flagCounts ==> flagCounts[f] == SumWhere(packets, Itself, f, One)
  {
    keys, flagCounts := [], map[];
    for i := 0 to |packets|
      invariant keys == DistinctKeys(packets[..i], Itself)
      invariant forall f :: f in flagCounts <==> f in keys
      invariant forall f :: f in flagCounts ==> flagCounts[f] == SumWhere(packets[..i], Itself, f, One)
    {
      var flags := packets[i];
      assert packets[..i + 1][..i] == packets[..i];
      if flags !in flagCounts {
        DistinctKeysMembers(packets[..i], Itself, flags);
        SumWhereAbsent(packets[..i], Itself, flags, One);
        flagCounts := flagCounts[flags := 0];
        keys := keys + [flags];
      }
      flagCounts := flagCounts[flags := flagCounts[flags] + 1];
    }
    assert packets[..|packets|] == packets;
  }

  /** The loop of tcp_flags_analysis that describes each counted combination. */
  method DescribeCombinations(packets: seq<string>, keys: seq<string>, flagCounts: map<string, int>)
    returns (result: seq<FlagShare>)
    requires forall f :: f in flagCounts <==> f in keys
    requires forall f :: f in flagCounts ==> flagCounts[f] == SumWhere(packets, Itself, f, One)
    ensures result == MapSeq(keys, FlagMaker(packets))
  {
    result := [];
    for j := 0 to |keys|
      invariant |result| == j
      invariant forall m :: 0 <= m < j ==> result[m] == FlagShareOf(packets, keys[m])
    {
      var description := ProtocolDissection.TcpFlagsDescription(keys[j]);
      result := result + [FlagShare(keys[j], flagCounts[keys[j]], description)];
    }
    assert forall m :: 0 <= m < |keys| ==> result[m] == FlagMaker(packets)(keys[m]);
  }

  /** tcp_flags_analysis: count each flag combination, describe it, sort by count. */
  method TcpFlagsAnalysis(timeRange: string, now: Time, table: seq<PacketCapture.PacketRow>)
    returns (shares: seq<FlagShare>)
    ensures shares == FlagDistribution(TcpFlagStrings(table, StartTime(now, timeRange)))
  {
    var packets := TcpFlagStrings(table, StartTime(now, timeRange));
    var keys, flagCounts := CountFlagCombinations(packets);
    var result := DescribeCombinations(packets, keys, flagCounts);
    shares := Sort(result, DescendingBy(ShareCount));
  }

  lemma OccursIff(flags: seq<string>, f: string)
    ensures HasKey(flags, Itself, f) <==> f in flags
  {
    if f in flags {
      var m :| 0 <= m < |flags| && flags[m] == f;
      assert Itself(flags[m]) == f;
    }
  }

  /** The tcp-flags list is ordered by count, most frequent first, and rearranges the per-combination entries. */
  lemma FlagDistributionSorted(flags: seq<string>)
    ensures Sorted(FlagDistribution(flags), DescendingBy(ShareCount))
    ensures multiset(FlagDistribution(flags)) == multiset(MapSeq(DistinctKeys(flags, Itself), FlagMaker(flags)))
  {
    DescendingByIsPreorder(ShareCount);
    SortCorrect(MapSeq(DistinctKeys(flags, Itself), FlagMaker(flags)), DescendingBy(ShareCount));
  }

  /**
   * Each flag combination that occurs is listed exactly once, no other is,
   * each with a count of at least one and the dissector's description.
   */
  lemma FlagDistributionOnePerCombination(flags: seq<string>)
    ensures var d := FlagDistribution(flags);
      (forall i, j :: 0 <= i < j < |d| ==> d[i].flags != d[j].flags) &&
      (forall f :: (exists i :: 0 <= i < |d| && d[i].flags == f) <==> f in flags) &&
      (forall i :: 0 <= i < |d| ==> d[i].count >= 1 && d[i].description == ProtocolDissection.DescribeFlags(d[i].flags))
  {
    var ks := DistinctKeys(flags, Itself);
    var d := FlagDistribution(flags);
    LabelledPermutation(ks, FlagMaker(flags), ShareFlags, d);
    forall f
      ensures (exists i :: 0 <= i < |d| && d[i].flags == f) <==> f in flags
    {
      DistinctKeysMembers(flags, Itself, f);
      OccursIff(flags, f);
    }
    forall i | 0 <= i < |d|
      ensures d[i].count >= 1
    {
      DistinctKeysMembers(flags, Itself, d[i].flags);
      SumWherePresent(flags, Itself, d[i].flags, One);
    }
  }

  /** The counts of the tcp-flags list add up to the number of TCP packets with flags. */
  lemma FlagCountsTotal(flags: seq<string>)
    ensures SumBy(FlagDistribution(flags), FlagShareCount) == |flags|
  {
    var ks := DistinctKeys(flags, Itself);
    SumByPermutation(FlagDistribution(flags), MapSeq(ks, FlagMaker(flags)), FlagShareCount);
    SumByMap(ks, FlagMaker(flags), FlagShareCount);
    SumByExtensional(ks, Composed(FlagMaker(flags), FlagShareCount), Summer(flags, Itself, One));
    GroupTotals(flags, Itself, One);
    SumOfOnes(flags, One);
  }

  // ------------------------------------------------------- protocol over time

  /** One point of the time series: a bucket start and the bytes of each protocol seen in it. */
  datatype SeriesPoint = SeriesPoint(timestamp: Time, bytes: map<string, int>)

  function RowCell(r: ShareRow): (Time, string) { (r.timestamp, r.protocol) }
  function Earliest(p: SeriesPoint): real { -(p.timestamp as real) }
  function PointTime(p: SeriesPoint): Time { p.timestamp }

  /** The rows protocol-over-time reads: those since `start`, oldest first. */
  function OldestFirst(table: seq<ShareRow>, start: Time): seq<ShareRow>
  {
    Sort(Since(table, RowTime, start), DescendingBy(Oldest))
  }

  /** The rows with their timestamps rounded down to their buckets' starts. */
  function Bucketed(rows: seq<ShareRow>, g: nat): (b: seq<ShareRow>)
    requires g > 0
    ensures |b| == |rows|
    ensures forall i :: 0 <= i < |rows| ==> b[i] == rows[i].(timestamp := RoundDown(rows[i].timestamp, g))
  {
    seq(|rows|, i requires 0 <= i < |rows| => rows[i].(timestamp := RoundDown(rows[i].timestamp, g)))
  }

  /** The protocols that have a row in bucket `t`. */
  function ProtocolsAt(b: seq<ShareRow>, t: Time): set<string>
  {
    set i | 0 <= i < |b| && b[i].timestamp == t :: b[i].protocol
  }

  /** The point for bucket `t`: each protocol in it with its summed bytes. */
  function PointOf(b: seq<ShareRow>, t: Time): SeriesPoint
  {
    SeriesPoint(t, map p | p in ProtocolsAt(b, t) :: SumWhere(b, RowCell, (t, p), RowBytes))
  }

  function PointMaker(b: seq<ShareRow>): Time -> SeriesPoint
  {
    t => PointOf(b, t)
  }

  /** The response's time series: one point per bucket, in time order. */
  function Series(b: seq<ShareRow>): seq<SeriesPoint>
  {
    Sort(MapSeq(DistinctKeys(b, RowTime), PointMaker(b)), DescendingBy(Earliest))
  }

  lemma ProtocolsAtSnoc(b: seq<ShareRow>, r: ShareRow, t: Time)
    ensures ProtocolsAt(b + [r], t) == ProtocolsAt(b, t) + (if r.timestamp == t then {r.protocol} else {})
  {
    var b2 := b + [r];
    forall p
      ensures p in ProtocolsAt(b2, t) <==> p in ProtocolsAt(b, t) || (r.timestamp == t && p == r.protocol)
    {
      if p in ProtocolsAt(b2, t) {
        var i :| 0 <= i < |b2| && b2[i].timestamp == t && b2[i].protocol == p;
        if i < |b| {
          assert b[i] == b2[i];
        }
      }
      if p in ProtocolsAt(b, t) {
        var i :| 0 <= i < |b| && b[i].timestamp == t && b[i].protocol == p;
        assert b2[i] == b[i];
      }
      if r.timestamp == t && p == r.protocol {
        assert b2[|b|] == r;
      }
    }
  }

  lemma NoCellOutsideProtocols(b: seq<ShareRow>, t: Time, p: string)
    requires p !in ProtocolsAt(b, t)
    ensures !HasKey(b, RowCell, (t, p))
  {
    forall i | 0 <= i < |b|
      ensures RowCell(b[i]) != (t, p)
    {
      if b[i].timestamp == t {
        assert b[i].protocol in ProtocolsAt(b, t);
      }
    }
  }

  lemma ProtocolsAtBucket(b: seq<ShareRow>, t: Time)
    ensures ProtocolsAt(b, t) != {} <==> HasKey(b, RowTime, t)
  {
    if HasKey(b, RowTime, t) {
      var i :| 0 <= i < |b| && RowTime(b[i]) == t;
      assert b[i].protocol in ProtocolsAt(b, t);
    }
    if ProtocolsAt(b, t) != {} {
      var p :| p in ProtocolsAt(b, t);
      var i :| 0 <= i < |b| && b[i].timestamp == t && b[i].protocol == p;
      assert RowTime(b[i]) == t;
    }
  }

  /** The buckets the grouping loop of protocol_over_time has seen after the rows `b` (already bucketed). */
  ghost predicate SeriesOrder(b: seq<ShareRow>, order: seq<Time>, timeSeries: map<Time, map<string, Totals>>)
  {
    order == DistinctKeys(b, RowTime) && (forall t :: t in timeSeries <==> t in order)
  }

  /** The protocols of each bucket and their running sums after the rows `b`. */
  ghost predicate SeriesCells(b: seq<ShareRow>, timeSeries: map<Time, map<string, Totals>>)
  {
    (forall t :: t in timeSeries ==> timeSeries[t].Keys == ProtocolsAt(b, t)) &&
    (forall t, p :: t in timeSeries && p in timeSeries[t] ==>
      timeSeries[t][p] == Totals(SumWhere(b, RowCell, (t, p), RowPackets), SumWhere(b, RowCell, (t, p), RowBytes)))
  }

  ghost predicate SeriesState(b: seq<ShareRow>, order: seq<Time>, timeSeries: map<Time, map<string, Totals>>)
  {
    SeriesOrder(b, order, timeSeries) && SeriesCells(b, timeSeries)
  }

  /** Adding row `r`: a new bucket goes to the end of the order. */
  lemma SeriesOrderStep(b: seq<ShareRow>, r: ShareRow, order: seq<Time>, timeSeries: map<Time, map<string, Totals>>,
                        order2: seq<Time>, timeSeries2: map<Time, map<string, Totals>>)
    requires SeriesOrder(b, order, timeSeries)
    requires order2 == if r.timestamp in timeSeries then order else order + [r.timestamp]
    requires timeSeries2.Keys == timeSeries.Keys + {r.timestamp}
    ensures SeriesOrder(b + [r], order2, timeSeries2)
  {
    assert (b + [r])[..|b|] == b;
    if r.timestamp !in timeSeries {
      DistinctKeysMembers(b, RowTime, r.timestamp);
    }
  }

  /** Adding row `r`: only the cell of its bucket and protocol changes, by the row's counts. */
  lemma SeriesCellsStep(b: seq<ShareRow>, r: ShareRow, order: seq<Time>, timeSeries: map<Time, map<string, Totals>>,
                        cells: map<string, Totals>, sums: Totals, timeSeries2: map<Time, map<string, Totals>>)
    requires SeriesState(b, order, timeSeries)
    requires cells == if r.timestamp in timeSeries then timeSeries[r.timestamp] else map[]
    requires sums == if r.protocol in cells then cells[r.protocol] else Totals(0, 0)
    requires timeSeries2 == timeSeries[r.timestamp := cells[r.protocol := Totals(sums.packets + r.packetCount, sums.bytes + r.byteCount)]]
    ensures SeriesCells(b + [r], timeSeries2)
  {
    var b2 := b + [r];
    var t0 := r.timestamp;
    assert b2[..|b|] == b;
    if t0 !in timeSeries {
      DistinctKeysMembers(b, RowTime, t0);
      ProtocolsAtBucket(b, t0);
    }
    if r.protocol !in cells {
      NoCellOutsideProtocols(b, t0, r.protocol);
      SumWhereAbsent(b, RowCell, (t0, r.protocol), RowPackets);
      SumWhereAbsent(b, RowCell, (t0, r.protocol), RowBytes);
    }
    forall t | t in timeSeries2
      ensures timeSeries2[t].Keys == ProtocolsAt(b2, t)
    {
      ProtocolsAtSnoc(b, r, t);
    }
    forall t, p | t in timeSeries2 && p in timeSeries2[t]
      ensures timeSeries2[t][p] == Totals(SumWhere(b2, RowCell, (t, p), RowPackets), SumWhere(b2, RowCell, (t, p), RowBytes))
    {
      SeriesCellStep(b, r, timeSeries, cells, sums, timeSeries2, t, p);
    }
  }

  /** One cell after adding row `r`: its running sums are those of the rows `b + [r]`. */
  lemma SeriesCellStep(b: seq<ShareRow>, r: ShareRow, timeSeries: map<Time, map<string, Totals>>,
                       cells: map<string, Totals>, sums: Totals, timeSeries2: map<Time, map<string, Totals>>, t: Time, p: string)
    requires SeriesCells(b, timeSeries)
    requires cells == if r.timestamp in timeSeries then timeSeries[r.timestamp] else map[]
    requires sums == if r.protocol in cells then cells[r.protocol] else Totals(0, 0)
    requires r.protocol !in cells ==>
      SumWhere(b, RowCell, RowCell(r), RowPackets) == 0 && SumWhere(b, RowCell, RowCell(r), RowBytes) == 0
    requires timeSeries2 == timeSeries[r.timestamp := cells[r.protocol := Totals(sums.packets + r.packetCount, sums.bytes + r.byteCount)]]
    requires t in timeSeries2 && p in timeSeries2[t]
    ensures timeSeries2[t][p] == Totals(SumWhere(b + [r], RowCell, (t, p), RowPackets), SumWhere(b + [r], RowCell, (t, p), RowBytes))
  {
    SumWhereSnoc(b, r, (t, p));
    if t == r.timestamp && p == r.protocol {
      assert sums == Totals(SumWhere(b, RowCell, (t, p), RowPackets), SumWhere(b, RowCell, (t, p), RowBytes));
    } else if t == r.timestamp {
      assert p in cells && timeSeries2[t][p] == cells[p] == timeSeries[t][p];
    } else {
      assert timeSeries2[t] == timeSeries[t];
    }
  }

  lemma SumWhereSnoc(b: seq<ShareRow>, r: ShareRow, c: (Time, string))
    ensures SumWhere(b + [r], RowCell, c, RowPackets) == SumWhere(b, RowCell, c, RowPackets) + (if RowCell(r) == c then r.packetCount else 0)
    ensures SumWhere(b + [r], RowCell, c, RowBytes) == SumWhere(b, RowCell, c, RowBytes) + (if RowCell(r) == c then r.byteCount else 0)
  {
    assert (b + [r])[..|b|] == b;
  }

  /** `time_data[proto] = data['byte_count']` for every protocol of a bucket. */
  function ByteCounts(cells: map<string, Totals>): map<string, int>
  {
    map p | p in cells :: cells[p].bytes
  }

  /** The grouping loop of protocol_over_time: bucket each row and add it to its cell. */
  method BucketSeries(rows: seq<ShareRow>, groupMinutes: nat) returns (order: seq<Time>, timeSeries: map<Time, map<string, Totals>>)
    requires groupMinutes > 0
    ensures SeriesState(Bucketed(rows, groupMinutes), order, timeSeries)
  {
    ghost var b := Bucketed(rows, groupMinutes);
    order, timeSeries := [], map[];
    for i := 0 to |rows|
      invariant SeriesState(b[..i], order, timeSeries)
    {
      var proto := rows[i];
      var timeKey := RoundDown(proto.timestamp, groupMinutes);
      ghost var order0, timeSeries0 := order, timeSeries;
      if timeKey !in timeSeries {
        timeSeries := timeSeries[timeKey := map[]];
        order := order + [timeKey];
      }
      var cells := timeSeries[timeKey];
      ghost var cells0 := cells;
      if proto.protocol !in cells {
        cells := cells[proto.protocol := Totals(0, 0)];
      }
      var sums := cells[proto.protocol];
      cells := cells[proto.protocol := Totals(sums.packets + proto.packetCount, sums.bytes + proto.byteCount)];
      timeSeries := timeSeries[timeKey := cells];
      assert timeSeries == timeSeries0[timeKey := cells];
      assert cells == cells0[proto.protocol := Totals(sums.packets + proto.packetCount, sums.bytes + proto.byteCount)];
      assert b[i] == proto.(timestamp := timeKey);
      assert b[..i + 1] == b[..i] + [b[i]];
      SeriesOrderStep(b[..i], b[i], order0, timeSeries0, order, timeSeries);
      SeriesCellsStep(b[..i], b[i], order0, timeSeries0, cells0, sums, timeSeries);
    }
    assert b[..|rows|] == b;
  }

  /** protocol_over_time: bucket the rows, sum bytes per protocol and bucket, sort by time. */
  method ProtocolOverTime(timeRange: string, interval: string, now: Time, table: seq<ShareRow>)
    returns (series: seq<SeriesPoint>)
    ensures series == Series(Bucketed(OldestFirst(table, StartTime(now, timeRange)), GroupMinutes(timeRange, interval)))
  {
    var groupMinutes := GroupMinutes(timeRange, interval);
    var rows := OldestFirst(table, StartTime(now, timeRange));
    var order, timeSeries := BucketSeries(rows, groupMinutes);
    ghost var b := Bucketed(rows, groupMinutes);
    assert SeriesOrder(b, order, timeSeries) && SeriesCells(b, timeSeries);
    forall j | 0 <= j < |order|
      ensures order[j] in timeSeries
    {
      assert order[j] in order;
      assert SeriesOrder(b, order, timeSeries);
      assert forall t :: t in timeSeries <==> t in order;
    }
    var result: seq<SeriesPoint> := seq(|order|, (j: int) requires 0 <= j < |order| =>
      SeriesPoint(order[j], ByteCounts(timeSeries[order[j]])));
    forall j | 0 <= j < |order|
      ensures result[j] == PointMaker(b)(order[j])
    {
      var t := order[j];
      assert timeSeries[t].Keys == ProtocolsAt(b, t);
      assert ByteCounts(timeSeries[t]) == PointOf(b, t).bytes;
    }
    assert result == MapSeq(order, PointMaker(b));
    series := Sort(result, DescendingBy(Earliest));
  }

  /** One point per bucket that holds a row, in strictly increasing time order. */
  lemma SeriesOrdered(b: seq<ShareRow>)
    ensures var s := Series(b);
      (forall i, j :: 0 <= i < j < |s| ==> s[i].timestamp < s[j].timestamp) &&
      (forall t :: (exists i :: 0 <= i < |s| && s[i].timestamp == t) <==> HasKey(b, RowTime, t))
  {
    var ks := DistinctKeys(b, RowTime);
    var s := Series(b);
    DescendingByIsPreorder(Earliest);
    SortCorrect(MapSeq(ks, PointMaker(b)), DescendingBy(Earliest));
    LabelledPermutation(ks, PointMaker(b), PointTime, s);
    forall i, j | 0 <= i < j < |s|
      ensures s[i].timestamp < s[j].timestamp
    {
      assert DescendingBy(Earliest)(s[i], s[j]);
      assert Earliest(s[i]) >= Earliest(s[j]);
      assert PointTime(s[i]) != PointTime(s[j]);
    }
    forall t
      ensures (exists i :: 0 <= i < |s| && s[i].timestamp == t) <==> HasKey(b, RowTime, t)
    {
      DistinctKeysMembers(b, RowTime, t);
    }
  }

  /**
   * Every point starts on a multiple of the bucket width and lists exactly the
   * protocols seen in its bucket, each with the bytes of that protocol's rows there.
   */
  lemma SeriesPoints(rows: seq<ShareRow>, g: nat, i: nat)
    requires g > 0 && 60 % g == 0
    requires i < |Series(Bucketed(rows, g))|
    ensures var b := Bucketed(rows, g);
      var pt := Series(b)[i];
      pt.timestamp % (SECONDS_PER_MINUTE * g) == 0 &&
      pt.bytes.Keys == ProtocolsAt(b, pt.timestamp) &&
      forall p :: p in pt.bytes ==> pt.bytes[p] == SumWhere(b, RowCell, (pt.timestamp, p), RowBytes)
  {
    var b := Bucketed(rows, g);
    var ks := DistinctKeys(b, RowTime);
    var s := Series(b);
    LabelledPermutation(ks, PointMaker(b), PointTime, s);
    var t := s[i].timestamp;
    assert s[i] == PointOf(b, t);
    DistinctKeysMembers(b, RowTime, t);
    var m :| 0 <= m < |b| && RowTime(b[m]) == t;
    RoundDownIsFloor(rows[m].timestamp, g);
  }
}
