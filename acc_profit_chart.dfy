/** The cumulative profit chart of frontend/src/components/accProfitchart.tsx:
    the distinct players, one running profit total per player across the
    games in input order, and the padding of every series and of the x axis
    to at least `minTickInterval` points. Profits are mathematical integers. */
module AccProfitChart {
  import opened Seqs

  /** The fields of a game record the chart reads. */
  datatype Record = Record(playerName: string, profit: int)

  /** One game: its end time (the x-axis label) and its records, any of
      which may be `null`. */
  datatype Game = Game(endTime: string, records: seq<Option<Record>>)

  const MinTickInterval: nat := 15

  /** The filter `record && record.player_name`: a record that is there and
      has a non-empty name. */
  predicate Named(r: Option<Record>) {
    r.Some? && r.value.playerName != ""
  }

  /** The `find` callback: a named record of player `name`. */
  predicate Matches(r: Option<Record>, name: string) {
    Named(r) && r.value.playerName == name
  }

  /** Player `name` has a named record in game `g`. */
  ghost predicate Plays(g: Game, name: string) {
    exists k :: 0 <= k < |g.records| && Matches(g.records[k], name)
  }

  /** The names of a game's named records, in record order. */
  function NamesIn(records: seq<Option<Record>>): seq<string> {
    if records == [] then []
    else (if Named(records[0]) then [records[0].value.playerName] else []) + NamesIn(records[1..])
  }

  /** `data.flatMap(...)`: the names of all named records, game by game. */
  function PlayerNames(data: seq<Game>): seq<string> {
    if data == [] then [] else NamesIn(data[0].records) + PlayerNames(data[1..])
  }

  lemma {:induction false} NamesInSpec(records: seq<Option<Record>>, name: string)
    ensures name in NamesIn(records) <==> exists k :: 0 <= k < |records| && Matches(records[k], name)
  {
    if records != [] {
      NamesInSpec(records[1..], name);
      if name in NamesIn(records[1..]) {
        var k :| 0 <= k < |records| - 1 && Matches(records[1..][k], name);
        assert Matches(records[k + 1], name);
      }
      if exists k :: 0 <= k < |records| && Matches(records[k], name) {
        var k :| 0 <= k < |records| && Matches(records[k], name);
        if k > 0 { assert Matches(records[1..][k - 1], name); }
      }
    }
  }

  /** A name is collected exactly when some game has a named record of it. */
  lemma {:induction false} PlayerNamesSpec(data: seq<Game>, name: string)
    ensures name in PlayerNames(data) <==> exists i :: 0 <= i < |data| && Plays(data[i], name)
  {
    if data != [] {
      PlayerNamesSpec(data[1..], name);
      NamesInSpec(data[0].records, name);
      if exists i :: 0 <= i < |data| && Plays(data[i], name) {
        var i :| 0 <= i < |data| && Plays(data[i], name);
        if i > 0 { assert Plays(data[1..][i - 1], name); }
      }
      if name in PlayerNames(data[1..]) {
        var i :| 0 <= i < |data| - 1 && Plays(data[1..][i], name);
        assert Plays(data[i + 1], name);
      }
    }
  }

  /** `allPlayers`: every player with a named record somewhere, once each,
      in order of first appearance across games and then records. */
  function AllPlayers(data: seq<Game>): (r: seq<string>)
    ensures FirstOccurrences(PlayerNames(data), r)
    ensures forall name :: name in r <==> exists i :: 0 <= i < |data| && Plays(data[i], name)
    ensures forall name :: name in r ==> name != ""
  {
    var names := PlayerNames(data);
    var r := Dedup(names);
    DedupSpec(names);
    forall name ensures name in r <==> exists i :: 0 <= i < |data| && Plays(data[i], name) {
      PlayerNamesSpec(data, name);
      if name in names {
        var k :| 0 <= k < |names| && names[k] == name;
      }
    }
    r
  }

  /** `records.find(...)`: the first record of player `name` in the game. */
  function Find(records: seq<Option<Record>>, name: string): (r: Option<Record>)
    ensures r.None? <==> forall k :: 0 <= k < |records| ==> !Matches(records[k], name)
    ensures r.Some? ==> exists k :: 0 <= k < |records| && records[k] == r && Matches(records[k], name) &&
                                    (forall j :: 0 <= j < k ==> !Matches(records[j], name))
  {
    if records == [] then None
    else if Matches(records[0], name) then records[0]
    else
      var r := Find(records[1..], name);
      assert forall k :: 1 <= k < |records| ==> records[k] == records[1..][k - 1];
      r
  }

  /** What game `g` adds to player `name`'s running total: the profit of
      the first matching record, or nothing when the player has none. */
  function GameProfit(g: Game, name: string): (p: int)
    ensures !Plays(g, name) ==> p == 0
    ensures Plays(g, name) ==> exists k :: 0 <= k < |g.records| && Matches(g.records[k], name) &&
                                           p == g.records[k].value.profit &&
                                           (forall j :: 0 <= j < k ==> !Matches(g.records[j], name))
  {
    match Find(g.records, name)
    case Some(r) => r.profit
    case None => 0
  }

  /** Player `name`'s total over the games `games`. */
  function Total(games: seq<Game>, name: string): int {
    if games == [] then 0 else Total(games[..|games| - 1], name) + GameProfit(games[|games| - 1], name)
  }

  /** The totals add up over consecutive stretches of games. */
  lemma {:induction false} TotalAppend(a: seq<Game>, b: seq<Game>, name: string)
    ensures Total(a + b, name) == Total(a, name) + Total(b, name)
  {
    if b == [] {
      assert a + b == a;
    } else {
      var n := |b| - 1;
      assert (a + b)[..|a + b| - 1] == a + b[..n];
      TotalAppend(a, b[..n], name);
    }
  }

  /** The running total after each game: entry `i` is the total over
      games `0..i`. */
  function CumulativeProfits(data: seq<Game>, name: string): (r: seq<int>)
    ensures |r| == |data|
  {
    seq(|data|, i requires 0 <= i < |data| => Total(data[..i + 1], name))
  }

  /** One more game adds one more point: the total over all games so far. */
  lemma CumulativeSnoc(games: seq<Game>, g: Game, name: string)
    ensures CumulativeProfits(games + [g], name) == CumulativeProfits(games, name) + [Total(games + [g], name)]
  {
    forall k | 0 <= k < |games|
      ensures CumulativeProfits(games + [g], name)[k] == CumulativeProfits(games, name)[k]
    {
      assert (games + [g])[..k + 1] == games[..k + 1];
    }
    assert (games + [g])[..|games| + 1] == games + [g];
  }

  /** The running total before game `i`: the previous point, or the 0 the
      accumulator starts from. */
  function Before(data: seq<Game>, name: string, i: nat): int
    requires i < |data|
  {
    if i == 0 then 0 else CumulativeProfits(data, name)[i - 1]
  }

  /** Each point is the one before plus what the game adds. */
  lemma CumulativeStep(data: seq<Game>, name: string, i: nat)
    requires i < |data|
    ensures CumulativeProfits(data, name)[i] == Before(data, name, i) + GameProfit(data[i], name)
  {
    if i == 0 {
      assert data[..1][..0] == [] && data[..1][0] == data[0];
      assert Total(data[..1], name) == Total([], name) + GameProfit(data[0], name);
    } else {
      assert data[..i + 1][..i] == data[..i];
    }
  }

  /** In a game the player did not play, the line stays where it was. */
  lemma CarryForward(data: seq<Game>, name: string, i: nat)
    requires i < |data| && !Plays(data[i], name)
    ensures CumulativeProfits(data, name)[i] == Before(data, name, i)
  {
    CumulativeStep(data, name, i);
  }

  /** The running total at the end of the games is the sum over any split
      of them into an earlier and a later stretch. */
  lemma CumulativeSplit(data: seq<Game>, name: string, i: nat)
    requires i < |data| - 1
    ensures CumulativeProfits(data, name)[|data| - 1]
         == CumulativeProfits(data, name)[i] + Total(data[i + 1..], name)
  {
    var cp := CumulativeProfits(data, name);
    assert cp[i] == Total(data[..i + 1], name);
    assert cp[|data| - 1] == Total(data[..|data|], name);
    assert data[..|data|] == data;
    assert data == data[..i + 1] + data[i + 1..];
    TotalAppend(data[..i + 1], data[i + 1..], name);
  }

  /** The per-player map callback of `series`: `acc` starts at 0, and each
      game with a record of the player adds that record's profit. */
  method PlayerSeries(data: seq<Game>, name: string) returns (playerData: seq<int>)
    ensures playerData == CumulativeProfits(data, name)
  {
    var acc := 0;
    playerData := [];
    for i := 0 to |data|
      invariant acc == Total(data[..i], name)
      invariant playerData == CumulativeProfits(data[..i], name)
    {
      var record := Find(data[i].records, name);
      if record.Some? {
        acc := acc + record.value.profit;
      }
      assert data[..i + 1] == data[..i] + [data[i]];
      CumulativeSnoc(data[..i], data[i], name);
      playerData := playerData + [acc];
    }
    assert data[..|data|] == data;
  }

  /** `paddedPlayerData`: a leading 0, the running totals, then `null`s up to
      `minTickInterval` points. */
  function PaddedSeries(values: seq<int>): (r: seq<Option<int>>)
    ensures |r| == Max(|values| + 1, MinTickInterval)
    ensures r[0] == Some(0)
    ensures forall i :: 0 <= i < |values| ==> r[i + 1] == Some(values[i])
    ensures forall k :: |values| < k < |r| ==> r[k] == None
  {
    var p := [Some(0)] + seq(|values|, i requires 0 <= i < |values| => Some(values[i]));
    if |p| < MinTickInterval then p + seq(MinTickInterval - |p|, _ => None) else p
  }

  /** `paddedEndTime`: an empty label, the games' end times, then empty
      labels up to `minTickInterval` points. */
  function PaddedEndTime(data: seq<Game>): (r: seq<string>)
    ensures |r| == Max(|data| + 1, MinTickInterval)
    ensures r[0] == ""
    ensures forall i :: 0 <= i < |data| ==> r[i + 1] == data[i].endTime
    ensures forall k :: |data| < k < |r| ==> r[k] == ""
  {
    var p := [""] + seq(|data|, i requires 0 <= i < |data| => data[i].endTime);
    if |p| < MinTickInterval then p + seq(MinTickInterval - |p|, _ => "") else p
  }

  /** `maxInterval`: `max(1, floor(n / 15))`. */
  function MaxInterval(n: nat): (r: int)
    ensures r >= 1
    ensures n < 30 ==> r == 1
    ensures n >= 30 ==> r * 15 <= n < (r + 1) * 15
  {
    Max(1, n / 15)
  }

  /** One line of the chart. */
  datatype Series = Series(name: string, data: seq<Option<int>>)

  /** The parts of the chart option computed from the data. */
  datatype ChartOption = ChartOption(legend: seq<string>, xAxis: seq<string>, maxInterval: int, series: seq<Series>)

  /** The chart option: one padded running-total series per player, in the
      order of `allPlayers`, over an x axis of the same length. */
  method BuildChart(data: seq<Game>) returns (option: ChartOption)
    ensures option.legend == AllPlayers(data)
    ensures option.xAxis == PaddedEndTime(data)
    ensures option.maxInterval == MaxInterval(|data|)
    ensures |option.series| == |option.legend|
    ensures forall i :: 0 <= i < |option.series| ==>
      option.series[i] == Series(option.legend[i], PaddedSeries(CumulativeProfits(data, option.legend[i])))
    ensures forall i :: 0 <= i < |option.series| ==> |option.series[i].data| == |option.xAxis|
  {
    var allPlayers := AllPlayers(data);
    var xAxis := PaddedEndTime(data);
    var series: seq<Series> := [];
    for p := 0 to |allPlayers|
      invariant |series| == p
      invariant forall i :: 0 <= i < p ==>
        series[i] == Series(allPlayers[i], PaddedSeries(CumulativeProfits(data, allPlayers[i])))
      invariant forall i :: 0 <= i < p ==> |series[i].data| == |xAxis|
    {
      var playerData := PlayerSeries(data, allPlayers[p]);
      series := series + [Series(allPlayers[p], PaddedSeries(playerData))];
    }
    option := ChartOption(allPlayers, xAxis, MaxInterval(|data|), series);
  }

  /** Player P with profits 100, -50 and 20 (a second record of P in the
      third game is ignored), and a fourth game without P: the line is 100,
      50, 70 and then stays at 70. */
  lemma RunningTotalExample()
    ensures CumulativeProfits(ExampleGames(), "P") == [100, 50, 70, 70]
  {
    var data := ExampleGames();
    assert GameProfit(data[0], "P") == 100;
    assert GameProfit(data[1], "P") == -50;
    assert Find(data[2].records, "P") == Some(Record("P", 20));
    assert GameProfit(data[3], "P") == 0;
    CumulativeStep(data, "P", 0);
    CumulativeStep(data, "P", 1);
    CumulativeStep(data, "P", 2);
    CumulativeStep(data, "P", 3);
  }

  function ExampleGames(): seq<Game> {
    [Game("g1", [Some(Record("P", 100))]),
     Game("g2", [None, Some(Record("P", -50))]),
     Game("g3", [Some(Record("Q", 5)), Some(Record("P", 20)), Some(Record("P", 999))]),
     Game("g4", [Some(Record("Q", 1))])]
  }
}
