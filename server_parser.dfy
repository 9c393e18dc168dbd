/**
 * Match extraction of the esports scraper: each `<table>` found under a
 * game's match-list container becomes at most one match record, and the
 * three games' lists are concatenated into the response body.
 *
 * The HTML library is replaced by `Row`, the values the code reads out of
 * one table; `Date.parse` is the parameter `parse` (None standing for NaN)
 * and `Date.now()` is the parameter `now`.
 */
module ServerParser {
  import opened Wrappers
  import opened JsString

  /** The team whose matches are kept by `parseMatches`. */
  const TrackedTeam: string := "Sashi.A"
  /** The team the unfiltered Dota page is about. */
  const DotaTeam: string := "B8"

  const CsgoGame: string := "CS:GO"
  const DotaGame: string := "Dota 2"
  const ValorantGame: string := "Valorant"

  /** Prefix put in front of every tournament href. */
  const SiteRoot: string := "https://liquipedia.net"

  /** Largest magnitude of a valid time value in milliseconds (ECMAScript TimeClip). */
  const MaxTime: int := 8_640_000_000_000_000

  /** What the extraction reads out of one `<table>` element. */
  datatype Row = Row(
    leftText: string,               // text of `.team-left`, before trimming
    rightText: string,              // text of `.team-right`, before trimming
    countdownText: string,          // text of `.match-countdown`, raw
    formatText: string,             // text of the `abbr` in the first table row
    tournamentName: string,         // text of the tournament anchor
    tournamentHref: Option<string>) // its `href` attribute; None when it is undefined

  datatype Status = Going | Upcoming

  datatype Tournament = Tournament(name: string, link: string)

  /** One record of the response; `date` is None for an Invalid Date. */
  datatype Match = Match(
    name: string,
    game: string,
    date: Option<int>,
    format: string,
    status: Status,
    tournament: Tournament)

  /** The invariant every record keeps: going exactly when its date is a valid time before now. */
  predicate StatusConsistent(m: Match, now: int) {
    m.status == Going <==> (m.date.Some? && m.date.value < now)
  }

  /** `new Date(t)`: a NaN or out-of-range time value gives an Invalid Date. */
  function TimeClip(t: Option<int>): Option<int> {
    if t.Some? && -MaxTime <= t.value <= MaxTime then t else None
  }

  /** `getTime() < Date.now()`, where a NaN time value compares false. */
  function StatusAt(date: Option<int>, now: int): Status {
    if date.Some? && date.value < now then Going else Upcoming
  }

  /** The countdown text handed to the date parser: first `-` removed, then trimmed. */
  function CleanCountdown(raw: string): string {
    Trim(RemoveFirst(raw, '-'))
  }

  /** The countdown cleaning removes the first dash only and keeps every later one. */
  lemma CleanCountdownFirstDash(a: string, b: string)
    requires '-' !in a
    ensures CleanCountdown(a + "-" + b) == Trim(a + b)
  {
    RemoveFirstSplit(a, '-', b);
  }

  /** Text without a dash is only trimmed. */
  lemma CleanCountdownNoDash(raw: string)
    requires '-' !in raw
    ensures CleanCountdown(raw) == Trim(raw)
  {
    RemoveFirstCount(raw, '-');
  }

  /** `"https://liquipedia.net" + href`, where an undefined href reads as "undefined". */
  function TournamentLink(href: Option<string>): string {
    SiteRoot + match href { case Some(h) => h case None => "undefined" }
  }

  /** A link is the site root followed by the href, or by "undefined" when there is none. */
  lemma TournamentLinkParts(href: Option<string>)
    ensures |TournamentLink(href)| >= |SiteRoot|
    ensures TournamentLink(href)[..|SiteRoot|] == SiteRoot
    ensures TournamentLink(href)[|SiteRoot|..] == if href.Some? then href.value else "undefined"
  {
  }

  /** The record pushed for `row` once its enemy and game are known. */
  function MatchRecord(row: Row, enemy: string, game: string, now: int, parse: string -> Option<int>): (m: Match)
    ensures StatusConsistent(m, now)
  {
    var date := TimeClip(parse(CleanCountdown(row.countdownText)));
    Match(enemy, game, date, row.formatText, StatusAt(date, now),
          Tournament(row.tournamentName, TournamentLink(row.tournamentHref)))
  }

  /** A date the parser rejects never makes a match going. */
  lemma UnparseableIsUpcoming(row: Row, enemy: string, game: string, now: int, parse: string -> Option<int>)
    requires parse(CleanCountdown(row.countdownText)).None?
    ensures MatchRecord(row, enemy, game, now, parse).date.None?
    ensures MatchRecord(row, enemy, game, now, parse).status == Upcoming
  {
  }

  // ---------------------------------------------------------------- parseMatches

  /**
   * The enemy `parseMatches` picks from the trimmed team names, or None when
   * the tracked team plays on neither side. The left side is looked at first.
   */
  function TrackedEnemy(left: string, right: string): (r: Option<string>)
    ensures r.Some? <==> (left == TrackedTeam || right == TrackedTeam)
    ensures r.Some? ==> (r.value == TrackedTeam <==> left == TrackedTeam && right == TrackedTeam)
    ensures r.Some? ==> {r.value, TrackedTeam} == {left, right}
  {
    if left == TrackedTeam then Some(right)
    else if right == TrackedTeam then Some(left)
    else None
  }

  predicate IsTrackedRow(row: Row) {
    Trim(row.leftText) == TrackedTeam || Trim(row.rightText) == TrackedTeam
  }

  /** What one table contributes to `parseMatches`' list. */
  function TrackedRecord(row: Row, game: string, now: int, parse: string -> Option<int>): (r: Option<Match>)
    ensures r.Some? <==> IsTrackedRow(row)
    ensures r.Some? ==> r.value.game == game && StatusConsistent(r.value, now)
  {
    match TrackedEnemy(Trim(row.leftText), Trim(row.rightText))
    case None => None
    case Some(enemy) => Some(MatchRecord(row, enemy, game, now, parse))
  }

  /**
   * The record kept for a table names the side opposite the tracked team,
   * the left side winning a tie, so a table with the tracked team on both
   * sides records the tracked team itself as the enemy. Date, format and
   * tournament come from the table; the link is the site root plus the href.
   */
  lemma TrackedRecordFields(row: Row, game: string, now: int, parse: string -> Option<int>)
    requires IsTrackedRow(row)
    ensures var m := TrackedRecord(row, game, now, parse).value;
      && m.name == (if Trim(row.leftText) == TrackedTeam then Trim(row.rightText) else Trim(row.leftText))
      && (m.name == TrackedTeam <==> Trim(row.leftText) == TrackedTeam && Trim(row.rightText) == TrackedTeam)
      && m.date == TimeClip(parse(CleanCountdown(row.countdownText)))
      && m.format == row.formatText
      && m.tournament.name == row.tournamentName
      && m.tournament.link == SiteRoot + (if row.tournamentHref.Some? then row.tournamentHref.value else "undefined")
  {
  }

  /** The list `parseMatches` returns for the tables `rows`, in document order. */
  function TrackedRecords(rows: seq<Row>, game: string, now: int, parse: string -> Option<int>): (r: seq<Match>)
    ensures |r| <= |rows|
    ensures forall m :: m in r ==> m.game == game && StatusConsistent(m, now)
  {
    if rows == [] then []
    else
      var prev := TrackedRecords(rows[..|rows| - 1], game, now, parse);
      match TrackedRecord(rows[|rows| - 1], game, now, parse)
      case None => prev
      case Some(m) => prev + [m]
  }

  /** The positions in `s` of the elements that satisfy `p`, ascending. */
  function Positions<T>(s: seq<T>, p: T -> bool): (idx: seq<int>)
    ensures forall k :: 0 <= k < |idx| ==> 0 <= idx[k] < |s| && p(s[idx[k]])
    ensures forall k, l :: 0 <= k < l < |idx| ==> idx[k] < idx[l]
    ensures forall i :: 0 <= i < |s| && p(s[i]) ==> i in idx
  {
    if s == [] then []
    else
      var n := |s| - 1;
      var init := s[..n];
      assert forall i :: 0 <= i < n ==> s[i] == init[i];
      if p(s[n]) then Positions(init, p) + [n] else Positions(init, p)
  }

  /**
   * `parseMatches` is a filter and a map: its k-th record is built from the
   * k-th table involving the tracked team, and no other table adds anything.
   */
  lemma {:induction false} TrackedRecordsSelect(rows: seq<Row>, game: string, now: int, parse: string -> Option<int>)
    ensures |TrackedRecords(rows, game, now, parse)| == |Positions(rows, IsTrackedRow)|
    ensures forall k :: 0 <= k < |Positions(rows, IsTrackedRow)| ==>
      Some(TrackedRecords(rows, game, now, parse)[k]) == TrackedRecord(rows[Positions(rows, IsTrackedRow)[k]], game, now, parse)
  {
    if rows != [] {
      var n := |rows| - 1;
      var init := rows[..n];
      TrackedRecordsSelect(init, game, now, parse);
      var prev := Positions(init, IsTrackedRow);
      var out := TrackedRecords(init, game, now, parse);
      var idx := Positions(rows, IsTrackedRow);
      var r := TrackedRecords(rows, game, now, parse);
      var last := TrackedRecord(rows[n], game, now, parse);
      if last.Some? {
        assert idx == prev + [n];
        assert r == out + [last.value];
      } else {
        assert idx == prev;
        assert r == out;
      }
      forall k | 0 <= k < |idx| ensures Some(r[k]) == TrackedRecord(rows[idx[k]], game, now, parse) {
        if k < |prev| {
          assert r[k] == out[k] && idx[k] == prev[k];
          assert rows[prev[k]] == init[prev[k]];
        }
      }
    }
  }

  /** The tables are handled one after another: the list for `a + b` is a's list, then b's. */
  lemma {:induction false} TrackedRecordsAppend(a: seq<Row>, b: seq<Row>, game: string, now: int, parse: string -> Option<int>)
    ensures TrackedRecords(a + b, game, now, parse)
         == TrackedRecords(a, game, now, parse) + TrackedRecords(b, game, now, parse)
  {
    if b == [] {
      assert a + b == a;
    } else {
      var b' := b[..|b| - 1];
      assert (a + b)[..|a + b| - 1] == a + b';
      assert (a + b)[|a + b| - 1] == b[|b| - 1];
      TrackedRecordsAppend(a, b', game, now, parse);
    }
  }

  /**
   * `parseMatches` over the tables its selector found: one loop over the
   * tables, pushing a record for each one that involves the tracked team.
   */
  method ParseMatches(rows: seq<Row>, game: string, now: int, parse: string -> Option<int>)
    returns (matches: seq<Match>)
    ensures matches == TrackedRecords(rows, game, now, parse)
    ensures |matches| <= |rows|
    ensures forall m :: m in matches ==> m.game == game && StatusConsistent(m, now)
  {
    matches := [];
    for i := 0 to |rows|
      invariant matches == TrackedRecords(rows[..i], game, now, parse)
    {
      var row := rows[i];
      var leftTeam := Trim(row.leftText);
      var rightTeam := Trim(row.rightText);
      var enemy: string := "";
      var matchFound := false;
      if leftTeam == TrackedTeam {
        enemy := rightTeam;
        matchFound := true;
      } else if rightTeam == TrackedTeam {
        enemy := leftTeam;
        matchFound := true;
      }
      if matchFound {
        var date := TimeClip(parse(CleanCountdown(row.countdownText)));
        var status := StatusAt(date, now);
        matches := matches + [Match(enemy, game, date, row.formatText, status,
                                    Tournament(row.tournamentName, TournamentLink(row.tournamentHref)))];
      }
      assert rows[..i + 1][..i] == rows[..i];
    }
    assert rows[..|rows|] == rows;
  }

  /** Team cells are compared after trimming. */
  lemma ExampleTeams()
    ensures Trim(" Sashi.A") == TrackedTeam
    ensures Trim("X") == "X"
  {
  }

  /** The leading dash of a countdown goes and the inner one stays. */
  lemma ExampleCountdown()
    ensures CleanCountdown("- 1-2") == "1-2"
  {
  }

  /**
   * One table with the tracked team on the left, a countdown whose second
   * dash survives the cleaning, a date before now and a tournament href:
   * exactly one going record.
   */
  lemma OneTrackedTable(parse: string -> Option<int>)
    requires parse("1-2") == Some(1)
    ensures TrackedRecords([Row(" Sashi.A", "X", "- 1-2", "Bo3", "C", Some("/c"))], CsgoGame, 2, parse)
         == [Match("X", CsgoGame, Some(1), "Bo3", Going, Tournament("C", "https://liquipedia.net/c"))]
  {
    var row := Row(" Sashi.A", "X", "- 1-2", "Bo3", "C", Some("/c"));
    assert [row][..0] == [];
    ExampleTeams();
    ExampleCountdown();
    assert TrackedEnemy(Trim(row.leftText), Trim(row.rightText)) == Some("X");
    assert TournamentLink(row.tournamentHref) == "https://liquipedia.net/c";
    assert TimeClip(parse(CleanCountdown(row.countdownText))) == Some(1);
    var m := Match("X", CsgoGame, Some(1), "Bo3", Going, Tournament("C", "https://liquipedia.net/c"));
    assert MatchRecord(row, "X", CsgoGame, 2, parse) == m;
    assert TrackedRecord(row, CsgoGame, 2, parse) == Some(m);
  }

  // ---------------------------------------------------------------- parseDota

  /** The enemy on the unfiltered Dota page: the right team when the left one is B8, else the left. */
  function DotaEnemy(left: string, right: string): string {
    if left == DotaTeam then right else left
  }

  function DotaRecord(row: Row, now: int, parse: string -> Option<int>): Match {
    MatchRecord(row, DotaEnemy(Trim(row.leftText), Trim(row.rightText)), DotaGame, now, parse)
  }

  /** The list `parseDota` returns: one record per table. */
  function DotaRecords(rows: seq<Row>, now: int, parse: string -> Option<int>): (r: seq<Match>)
    ensures |r| == |rows|
  {
    if rows == [] then []
    else DotaRecords(rows[..|rows| - 1], now, parse) + [DotaRecord(rows[|rows| - 1], now, parse)]
  }

  /** The i-th Dota record is built from the i-th table: the order of the tables is kept. */
  lemma {:induction false} DotaRecordsAt(rows: seq<Row>, now: int, parse: string -> Option<int>, i: nat)
    requires i < |rows|
    ensures DotaRecords(rows, now, parse)[i] == DotaRecord(rows[i], now, parse)
  {
    var init := rows[..|rows| - 1];
    if i < |init| {
      DotaRecordsAt(init, now, parse, i);
      assert rows[i] == init[i];
    }
  }

  /**
   * Every Dota record is labelled "Dota 2" and keeps the status invariant.
   * Its enemy is the trimmed right team exactly when the left team is B8 or
   * both sides read the same; when neither side is B8 it is the left team.
   * Date, format and tournament come from the i-th table; the link is the
   * site root plus the href.
   */
  lemma DotaRecordsFields(rows: seq<Row>, now: int, parse: string -> Option<int>, i: nat)
    requires i < |rows|
    ensures DotaRecords(rows, now, parse)[i].game == DotaGame
    ensures StatusConsistent(DotaRecords(rows, now, parse)[i], now)
    ensures DotaRecords(rows, now, parse)[i].name == Trim(rows[i].rightText)
        <==> (Trim(rows[i].leftText) == DotaTeam || Trim(rows[i].leftText) == Trim(rows[i].rightText))
    ensures Trim(rows[i].leftText) != DotaTeam ==> DotaRecords(rows, now, parse)[i].name == Trim(rows[i].leftText)
    ensures var m := DotaRecords(rows, now, parse)[i];
      && m.date == TimeClip(parse(CleanCountdown(rows[i].countdownText)))
      && m.format == rows[i].formatText
      && m.tournament.name == rows[i].tournamentName
      && m.tournament.link == SiteRoot + (if rows[i].tournamentHref.Some? then rows[i].tournamentHref.value else "undefined")
  {
    DotaRecordsAt(rows, now, parse, i);
  }

  /** `parseDota` over the tables its selector found: a record for every table. */
  method ParseDota(rows: seq<Row>, now: int, parse: string -> Option<int>) returns (matches: seq<Match>)
    ensures matches == DotaRecords(rows, now, parse)
    ensures |matches| == |rows|
    ensures forall m :: m in matches ==> m.game == DotaGame && StatusConsistent(m, now)
  {
    matches := [];
    for i := 0 to |rows|
      invariant matches == DotaRecords(rows[..i], now, parse)
      invariant forall m :: m in matches ==> m.game == DotaGame && StatusConsistent(m, now)
    {
      var row := rows[i];
      var leftTeam := Trim(row.leftText);
      var rightTeam := Trim(row.rightText);
      var date := TimeClip(parse(CleanCountdown(row.countdownText)));
      var enemy := if leftTeam == DotaTeam then rightTeam else leftTeam;
      var status := StatusAt(date, now);
      matches := matches + [Match(enemy, DotaGame, date, row.formatText, status,
                                  Tournament(row.tournamentName, TournamentLink(row.tournamentHref)))];
      assert rows[..i + 1][..i] == rows[..i];
    }
    assert rows[..|rows|] == rows;
  }

  // ---------------------------------------------------------------- getMatches

  /** `[...csgo, ...dota, ...valorant]`: each list kept whole and in order, CS:GO first. */
  function Aggregate(csgo: seq<Match>, dota: seq<Match>, valorant: seq<Match>): (r: seq<Match>)
    ensures |r| == |csgo| + |dota| + |valorant|
    ensures r[..|csgo|] == csgo
    ensures r[|csgo|..|csgo| + |dota|] == dota
    ensures r[|csgo| + |dota|..] == valorant
  {
    csgo + dota + valorant
  }

  /** Where each game's records sit in the concatenation. */
  lemma AggregateGames(csgo: seq<Match>, dota: seq<Match>, valorant: seq<Match>)
    requires forall m :: m in csgo ==> m.game == CsgoGame
    requires forall m :: m in dota ==> m.game == DotaGame
    requires forall m :: m in valorant ==> m.game == ValorantGame
    ensures forall k :: 0 <= k < |Aggregate(csgo, dota, valorant)| ==>
      Aggregate(csgo, dota, valorant)[k].game
        == (if k < |csgo| then CsgoGame else if k < |csgo| + |dota| then DotaGame else ValorantGame)
  {
  }

  /**
   * `getMatches`: the Valorant and CS:GO pages through `parseMatches`, the
   * Dota page through `parseDota`, concatenated CS:GO, Dota, Valorant.
   */
  method GetMatches(csgoRows: seq<Row>, dotaRows: seq<Row>, valorantRows: seq<Row>,
                    now: int, parse: string -> Option<int>) returns (all: seq<Match>)
    ensures all == Aggregate(TrackedRecords(csgoRows, CsgoGame, now, parse),
                             DotaRecords(dotaRows, now, parse),
                             TrackedRecords(valorantRows, ValorantGame, now, parse))
    ensures forall m :: m in all ==> StatusConsistent(m, now)
    ensures forall k :: 0 <= k < |all| ==>
      all[k].game == (if k < |TrackedRecords(csgoRows, CsgoGame, now, parse)| then CsgoGame
                      else if k < |TrackedRecords(csgoRows, CsgoGame, now, parse)| + |dotaRows| then DotaGame
                      else ValorantGame)
  {
    var valorantMatches := ParseMatches(valorantRows, ValorantGame, now, parse);
    var csgoMatches := ParseMatches(csgoRows, CsgoGame, now, parse);
    var dotaMatches := ParseDota(dotaRows, now, parse);
    all := Aggregate(csgoMatches, dotaMatches, valorantMatches);
    AggregateGames(csgoMatches, dotaMatches, valorantMatches);
  }
}
