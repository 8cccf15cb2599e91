/** The data preparation of frontend/src/components/accChart.tsx: the
    colour palette prefix, the distinct start times collected into a set
    and sorted, one chart row per start time built from the first record
    with that start time, and the list of player ids. Strings are compared
    character by character, as the default `Array.prototype.sort` does. */
module AccChart {
  import opened Seqs

  /** One row of the player-record response. A missing (or otherwise falsy)
      score is `None`. */
  datatype PlayerRecord = PlayerRecord(playerId: string, gameId: string, startTime: string, score: Option<int>)

  // ---------------------------------------------------------------------------
  // Colours

  const Palette: seq<string> := ["#8884d8", "#82ca9d", "#ffc658", "#ff7300", "#ff0000",
                                 "#00ff00", "#0000ff", "#ffff00", "#ff00ff", "#00ffff"]

  /** `generateColors(count)`, i.e. `colors.slice(0, count)`: a prefix of the
      palette, at most ten colours long, all different. A negative count
      counts from the end of the palette, as `slice` does. */
  function GenerateColors(count: int): (r: seq<string>)
    ensures 0 <= count ==> |r| == Min(count, |Palette|)
    ensures count < 0 ==> |r| == Max(0, |Palette| + count)
    ensures forall i :: 0 <= i < |r| ==> r[i] == Palette[i]
    ensures NoDup(r)
  {
    if count < 0 then Palette[..Max(0, |Palette| + count)] else Palette[..Min(count, |Palette|)]
  }

  // ---------------------------------------------------------------------------
  // String order and sorting

  /** The default sort order: `a` is a prefix of `b`, or at the first
      position where they differ `a` has the smaller character. */
  predicate StrLe(a: string, b: string) {
    a == [] || (b != [] && (a[0] < b[0] || (a[0] == b[0] && StrLe(a[1..], b[1..]))))
  }

  lemma {:induction false} StrLeTotal(a: string, b: string)
    ensures StrLe(a, b) || StrLe(b, a)
  {
    if a != [] && b != [] && a[0] == b[0] {
      StrLeTotal(a[1..], b[1..]);
    }
  }

  lemma {:induction false} StrLeTrans(a: string, b: string, c: string)
    requires StrLe(a, b) && StrLe(b, c)
    ensures StrLe(a, c)
  {
    if a != [] && a[0] == b[0] && b[0] == c[0] {
      StrLeTrans(a[1..], b[1..], c[1..]);
    }
  }

  lemma {:induction false} StrLeRefl(a: string)
    ensures StrLe(a, a)
  {
    if a != [] {
      StrLeRefl(a[1..]);
    }
  }

  lemma {:induction false} StrLeAntisym(a: string, b: string)
    requires StrLe(a, b) && StrLe(b, a)
    ensures a == b
  {
    if a != [] {
      StrLeAntisym(a[1..], b[1..]);
      assert a == [a[0]] + a[1..] && b == [b[0]] + b[1..];
    }
  }

  predicate Sorted(s: seq<string>) {
    forall i, j :: 0 <= i < j < |s| ==> StrLe(s[i], s[j])
  }

  /** Puts `x` in front of the first element it does not exceed. */
  function Insert(x: string, s: seq<string>): (r: seq<string>)
    ensures |r| == |s| + 1
  {
    if s == [] || StrLe(x, s[0]) then [x] + s else [s[0]] + Insert(x, s[1..])
  }

  /** Inserting adds `x` and keeps every other element. */
  lemma {:induction false} InsertMultiset(x: string, s: seq<string>)
    ensures multiset(Insert(x, s)) == multiset(s) + multiset{x}
  {
    if s != [] && !StrLe(x, s[0]) {
      InsertMultiset(x, s[1..]);
      assert s == [s[0]] + s[1..];
    }
  }

  /** Inserting into a sorted list keeps it sorted. */
  lemma {:induction false} InsertSorted(x: string, s: seq<string>)
    requires Sorted(s)
    ensures Sorted(Insert(x, s))
  {
    if s == [] {
    } else if StrLe(x, s[0]) {
      var r := [x] + s;
      forall i, j | 0 <= i < j < |r| ensures StrLe(r[i], r[j]) {
        if i == 0 && j > 1 {
          StrLeTrans(x, s[0], s[j - 1]);
        }
      }
    } else {
      var t := Insert(x, s[1..]);
      InsertSorted(x, s[1..]);
      StrLeTotal(x, s[0]);
      forall k | 0 <= k < |s| - 1 ensures StrLe(s[0], s[1..][k]) {
        assert s[1..][k] == s[k + 1];
      }
      InsertBound(x, s[1..], s[0]);
      var r := [s[0]] + t;
      forall i, j | 0 <= i < j < |r| ensures StrLe(r[i], r[j]) {
        if i > 0 {
          assert r[i] == t[i - 1] && r[j] == t[j - 1];
        }
      }
    }
  }

  /** A lower bound of `x` and of every element of `s` bounds every
      element after the insertion. */
  lemma InsertBound(x: string, s: seq<string>, lo: string)
    requires StrLe(lo, x)
    requires forall k :: 0 <= k < |s| ==> StrLe(lo, s[k])
    ensures forall k :: 0 <= k < |Insert(x, s)| ==> StrLe(lo, Insert(x, s)[k])
  {
    var t := Insert(x, s);
    InsertMultiset(x, s);
    forall k | 0 <= k < |t| ensures StrLe(lo, t[k]) {
      assert t[k] in multiset(t);
      if t[k] != x {
        assert t[k] in multiset(s);
        var m :| 0 <= m < |s| && s[m] == t[k];
      }
    }
  }

  /** The sort, written as an insertion sort. */
  function SortStrings(s: seq<string>): (r: seq<string>)
    ensures |r| == |s|
  {
    if s == [] then [] else Insert(s[0], SortStrings(s[1..]))
  }

  /** The sort orders its input and keeps every element as often as it
      occurs. */
  lemma {:induction false} SortStringsSpec(s: seq<string>)
    ensures Sorted(SortStrings(s))
    ensures multiset(SortStrings(s)) == multiset(s)
  {
    if s != [] {
      SortStringsSpec(s[1..]);
      InsertSorted(s[0], SortStrings(s[1..]));
      InsertMultiset(s[0], SortStrings(s[1..]));
      assert s == [s[0]] + s[1..];
    }
  }

  /** The first element of a sorted list is its least. */
  lemma SortedHeadLeast(a: seq<string>, x: string)
    requires Sorted(a) && x in a
    ensures StrLe(a[0], x)
  {
    var i :| 0 <= i < |a| && a[i] == x;
    if i == 0 {
      StrLeRefl(x);
    }
  }

  lemma HeadsRemoved(a: seq<string>, b: seq<string>)
    requires a != [] && b != [] && a[0] == b[0] && multiset(a) == multiset(b)
    ensures multiset(a[1..]) == multiset(b[1..])
  {
    assert a == [a[0]] + a[1..] && b == [b[0]] + b[1..];
    assert multiset(a[1..]) == multiset(a) - multiset{a[0]};
    assert multiset(b[1..]) == multiset(b) - multiset{b[0]};
  }

  /** A sorted arrangement of given elements is unique, so any correct sort
      agrees with `SortStrings`. */
  lemma {:induction false} SortedUnique(a: seq<string>, b: seq<string>)
    requires Sorted(a) && Sorted(b) && multiset(a) == multiset(b)
    ensures a == b
  {
    assert |a| == |multiset(a)| == |b|;
    if a != [] {
      assert a[0] in multiset(b) && b[0] in multiset(a);
      SortedHeadLeast(b, a[0]);
      SortedHeadLeast(a, b[0]);
      StrLeAntisym(a[0], b[0]);
      HeadsRemoved(a, b);
      SortedUnique(a[1..], b[1..]);
      assert a == [a[0]] + a[1..] && b == [b[0]] + b[1..];
    }
  }

  lemma {:induction false} NoDupCount(s: seq<string>, x: string)
    requires NoDup(s)
    ensures multiset(s)[x] <= 1
  {
    if s != [] {
      assert s == [s[0]] + s[1..];
      NoDupCount(s[1..], x);
      if s[0] == x {
        assert x !in s[1..];
      }
    }
  }

  /** Rearranging a duplicate-free list leaves it duplicate-free. */
  lemma PermutationKeepsNoDup(s: seq<string>, r: seq<string>)
    requires NoDup(s) && multiset(s) == multiset(r)
    ensures NoDup(r)
  {
    forall i, j | 0 <= i < j < |r| ensures r[i] != r[j] {
      NoDupCount(s, r[i]);
      assert r == r[..j] + r[j..];
      assert r[i] in r[..j] && r[j] in r[j..];
      assert multiset(r)[r[i]] == multiset(r[..j])[r[i]] + multiset(r[j..])[r[i]];
    }
  }

  // ---------------------------------------------------------------------------
  // Timestamps

  function StartTimes(records: seq<PlayerRecord>): (r: seq<string>)
    ensures |r| == |records|
  {
    seq(|records|, i requires 0 <= i < |records| => records[i].startTime)
  }

  /** `allTimestamps`: the `forEach` loop that adds every start time to a
      set, read back in insertion order by `Array.from`. */
  method CollectTimestamps(records: seq<PlayerRecord>) returns (ts: seq<string>)
    ensures ts == Dedup(StartTimes(records))
  {
    ts := [];
    for i := 0 to |records|
      invariant ts == Dedup(StartTimes(records[..i]))
    {
      assert StartTimes(records[..i + 1]) == StartTimes(records[..i]) + [records[i].startTime];
      DedupSnoc(StartTimes(records[..i]), records[i].startTime);
      if records[i].startTime !in ts {
        ts := ts + [records[i].startTime];
      }
    }
    assert records[..|records|] == records;
  }

  /** `sortedTimestamps`: every start time that occurs, once, in ascending
      order. */
  function Timestamps(records: seq<PlayerRecord>): (ts: seq<string>)
    ensures NoDup(ts) && Sorted(ts)
    ensures forall t :: t in ts <==> exists k :: 0 <= k < |records| && records[k].startTime == t
  {
    var starts := StartTimes(records);
    var d := Dedup(starts);
    DedupSpec(starts);
    var ts := SortStrings(d);
    SortStringsSpec(d);
    PermutationKeepsNoDup(d, ts);
    forall t ensures t in ts <==> exists k :: 0 <= k < |records| && records[k].startTime == t {
      assert t in ts <==> t in multiset(d);
      if exists k :: 0 <= k < |records| && records[k].startTime == t {
        var k :| 0 <= k < |records| && records[k].startTime == t;
        assert starts[k] == t;
      }
      if t in d {
        var k :| 0 <= k < |d| && d[k] == t;
        assert d[k] in starts;
      }
    }
    ts
  }

  // ---------------------------------------------------------------------------
  // Chart rows

  /** `records[k]` is the first record with start time `t`. */
  predicate FirstAt(records: seq<PlayerRecord>, t: string, k: int) {
    0 <= k < |records| && records[k].startTime == t &&
    forall j :: 0 <= j < k ==> records[j].startTime != t
  }

  /** `playerRecords.find(r => r.start_time === timestamp)`. */
  function FindByStart(records: seq<PlayerRecord>, t: string): (r: Option<PlayerRecord>)
    ensures r.None? <==> forall k :: 0 <= k < |records| ==> records[k].startTime != t
    ensures r.Some? ==> exists k :: FirstAt(records, t, k) && records[k] == r.value
  {
    if records == [] then None
    else if records[0].startTime == t then
      assert FirstAt(records, t, 0);
      Some(records[0])
    else
      var r := FindByStart(records[1..], t);
      assert forall k :: 1 <= k < |records| ==> records[k] == records[1..][k - 1];
      assert r.Some? ==> exists k :: FirstAt(records, t, k) && records[k] == r.value by {
        if r.Some? {
          var k :| FirstAt(records[1..], t, k) && records[1..][k] == r.value;
          assert FirstAt(records, t, k + 1);
        }
      }
      r
  }

  /** A cell of a chart row: the timestamp label or a score. */
  datatype Cell = Text(s: string) | Num(n: int)

  /** `record?.player_id || ''`. */
  function RowKey(rec: Option<PlayerRecord>): string {
    if rec.Some? then rec.value.playerId else ""
  }

  /** `record?.score || 0`. */
  function RowScore(rec: Option<PlayerRecord>): int {
    if rec.Some? && rec.value.score.Some? then rec.value.score.value else 0
  }

  /** The row object `{ timestamp, [key]: score }`: two entries, unless the
      player id is itself "timestamp", in which case the score overwrites
      the label. */
  function ChartRow(t: string, rec: Option<PlayerRecord>): (row: map<string, Cell>)
    ensures row.Keys == {"timestamp", RowKey(rec)}
    ensures row[RowKey(rec)] == Num(RowScore(rec))
    ensures RowKey(rec) != "timestamp" ==> row["timestamp"] == Text(t)
  {
    map["timestamp" := Text(t)][RowKey(rec) := Num(RowScore(rec))]
  }

  /** `chartData`: one row per sorted timestamp. */
  function ChartRows(records: seq<PlayerRecord>): (rows: seq<map<string, Cell>>)
    ensures |rows| == |Timestamps(records)|
  {
    var ts := Timestamps(records);
    seq(|ts|, i requires 0 <= i < |ts| => ChartRow(ts[i], FindByStart(records, ts[i])))
  }

  /** Row `i` is the row of the `i`-th smallest start time, built from the
      first record with that start time; later records with the same start
      time are not shown. */
  lemma RowOfTimestamp(records: seq<PlayerRecord>, i: nat)
    requires i < |Timestamps(records)|
    ensures exists k :: FirstAt(records, Timestamps(records)[i], k) &&
                        ChartRows(records)[i] == ChartRow(Timestamps(records)[i], Some(records[k]))
  {
    var t := Timestamps(records)[i];
    assert t in Timestamps(records);
    var k0 :| 0 <= k0 < |records| && records[k0].startTime == t;
    assert FindByStart(records, t).Some?;
    var k :| FirstAt(records, t, k) && records[k] == FindByStart(records, t).value;
    assert ChartRows(records)[i] == ChartRow(t, Some(records[k]));
  }

  /** Three records, two of them at 10:00, in an order that is not sorted. */
  function ExampleRecords(): seq<PlayerRecord> {
    [PlayerRecord("a", "g1", "10:00", Some(3)), PlayerRecord("b", "g2", "09:00", None),
     PlayerRecord("c", "g3", "10:00", Some(7))]
  }

  lemma ExampleDedup()
    ensures Dedup(["10:00", "09:00", "10:00"]) == ["10:00", "09:00"]
  {
    DedupSnoc([], "10:00");
    assert [] + ["10:00"] == ["10:00"];
    DedupSnoc(["10:00"], "09:00");
    assert ["10:00"] + ["09:00"] == ["10:00", "09:00"];
    DedupSnoc(["10:00", "09:00"], "10:00");
    assert ["10:00", "09:00"] + ["10:00"] == ["10:00", "09:00", "10:00"];
  }

  lemma ExampleSort()
    ensures SortStrings(["10:00", "09:00"]) == ["09:00", "10:00"]
  {
    assert !StrLe("10:00", "09:00");
    assert ["10:00", "09:00"][1..] == ["09:00"];
    assert SortStrings(["09:00"]) == ["09:00"];
  }

  /** The start times of the example, deduplicated and then sorted. */
  lemma ExampleTimestamps()
    ensures Timestamps(ExampleRecords()) == ["09:00", "10:00"]
  {
    assert StartTimes(ExampleRecords()) == ["10:00", "09:00", "10:00"];
    ExampleDedup();
    ExampleSort();
  }

  /** The two records at 10:00 give one row, with the earlier record's
      player and score; the record without a score counts as 0. */
  lemma SameStartTimeExample()
    ensures ChartRows(ExampleRecords()) == [map["timestamp" := Text("09:00"), "b" := Num(0)],
                                            map["timestamp" := Text("10:00"), "a" := Num(3)]]
  {
    var records := ExampleRecords();
    ExampleTimestamps();
    assert FindByStart(records, "10:00") == Some(records[0]);
    assert FindByStart(records, "09:00") == Some(records[1]);
  }

  // ---------------------------------------------------------------------------
  // fetchData

  /** What the request yields: a failure (any exception) or a response
      whose `data` field may be missing. */
  datatype Response = NetworkError | Response(data: Option<seq<PlayerRecord>>)

  /** The component state that `fetchData` sets. */
  datatype ChartState = ChartState(data: seq<map<string, Cell>>, players: seq<string>, error: string)

  const NoDataMessage: string := "暂无数据"
  const NetworkErrorMessage: string := "获取数据失败，请检查网络连接"

  /** `fetchData` after the request: rows and player ids for a non-empty
      response, the no-data message for a missing or empty one, the network
      message for a failed request; state that is not set stays empty. */
  method FetchData(response: Response) returns (state: ChartState)
    ensures response.NetworkError? ==> state == ChartState([], [], NetworkErrorMessage)
    ensures response.Response? && (response.data.None? || response.data.value == []) ==>
      state == ChartState([], [], NoDataMessage)
    ensures response.Response? && response.data.Some? && response.data.value != [] ==>
      var records := response.data.value;
      && state.error == ""
      && state.data == ChartRows(records)
      && |state.players| == |records|
      && (forall i :: 0 <= i < |records| ==> state.players[i] == records[i].playerId)
  {
    match response
    case NetworkError =>
      state := ChartState([], [], NetworkErrorMessage);
    case Response(data) =>
      if data.Some? && |data.value| > 0 {
        var playerRecords := data.value;
        var allTimestamps := CollectTimestamps(playerRecords);
        var sortedTimestamps := SortStrings(allTimestamps);
        var chartData := seq(|sortedTimestamps|, i requires 0 <= i < |sortedTimestamps| =>
          ChartRow(sortedTimestamps[i], FindByStart(playerRecords, sortedTimestamps[i])));
        var playerNames := seq(|playerRecords|, i requires 0 <= i < |playerRecords| => playerRecords[i].playerId);
        state := ChartState(chartData, playerNames, "");
      } else {
        state := ChartState([], [], NoDataMessage);
      }
  }
}
