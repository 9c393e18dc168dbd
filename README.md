# Match extraction of the esports match scraper

The scraper reads Liquipedia's match pages for three games and answers
`GET /matches` with a JSON list of match records. Its logic lives in
`serverParser.js`:

- `parseMatches(sourcePage, selector, game)` walks every `<table>` under a
  page's match-list container. It keeps a table only when its trimmed left
  or right team name is `"Sashi.A"`. The left side is checked first, and the
  other side becomes the enemy. The countdown text is cleaned: the first `-`
  is removed, then the text is trimmed. The cleaned text goes through
  `Date.parse`. The match is `going` when that time is before `Date.now()`,
  and `upcoming` otherwise. One record is pushed per kept table.
- `parseDota()` does the same over the B8 team page with no filter. Every
  table yields a record labelled `"Dota 2"`. The enemy is the right team when
  the left one is `"B8"`, and the left team otherwise.
- `getMatches()` runs the Valorant, CS:GO and Dota extractions and returns
  the CS:GO list, then the Dota list, then the Valorant list.

The model has three modules:

- `Wrappers` holds `Option`.
- `JsString` models `String.prototype.trim` and `replace` with a
  one-character pattern. `trim` removes ECMAScript's white-space and
  line-terminator characters.
- `ServerParser` holds the extraction.

Each table becomes a `Row`: the raw texts cheerio returns for the two team
cells, the countdown, the format `abbr`, the tournament anchor, and the
anchor's `href`. The `href` is `None` when the attribute is undefined; the
link is then the site root followed by `"undefined"`, as JavaScript's string
concatenation gives. `Date.parse` is the parameter `parse: string ->
Option<int>`, where `None` stands for NaN. `new Date(t)` is `TimeClip`: a time
beyond ±8.64e15 ms is an Invalid Date. `Date.now()` is the parameter `now`.
`parseMatches` and `parseDota` are methods with a loop that appends to the
list. Each is proved equal to a recursive function that serves as its reference, and the
lemmas state the properties of those functions.

Two behaviours of the code are worth spelling out:

- A table with `"Sashi.A"` on both sides is kept, and `"Sashi.A"` is recorded
  as its enemy, because the left side is checked first. `TrackedEnemy`
  states this.
- `getMatches` awaits the extractions one after another (Valorant, CS:GO,
  Dota) and concatenates CS:GO, Dota, Valorant.

## Model

| member | source | states |
|---|---|---|
| `JsString.TrimStartSpec` | serverParser.js:50 | leading trim keeps a suffix, drops only white space, and stops at the first other character |
| `JsString.TrimEndSpec` | serverParser.js:50 | trailing trim keeps a prefix, drops only white space, and stops at the last other character |
| `JsString.TrimSlice` | serverParser.js:50-51 | `trim` returns a slice of its input: some white space, the result, some white space make up the input, and the result has no white space at either end |
| `JsString.TrimStartOf` | serverParser.js:50 | white space followed by a text not starting with white space loses exactly the white space |
| `JsString.TrimEndOf` | serverParser.js:50 | a text not ending with white space, followed by white space, loses exactly the white space |
| `JsString.TrimOf` | serverParser.js:50-51 | `trim` is characterised by its result: white space, a slice with non-white ends, white space trims to that slice |
| `JsString.TrimIdempotent` | serverParser.js:76 | trimming twice is trimming once |
| `JsString.RemoveFirstCount` | serverParser.js:75 | `replace("-", "")` returns the text unchanged when it has no dash, otherwise removes exactly one dash and nothing else (multiset) |
| `JsString.RemoveFirstSplit` | serverParser.js:75 | only the first dash is removed: `a + "-" + b` with no dash in `a` becomes `a + b`, later dashes kept in place |
| `ServerParser.CleanCountdownFirstDash` | serverParser.js:72-76 | the date text is the countdown with its first dash removed and then trimmed; later dashes survive |
| `ServerParser.CleanCountdownNoDash` | serverParser.js:72-76 | a countdown with no dash is only trimmed |
| `ServerParser.ExampleCountdown` | serverParser.js:72-76 | `"- 1-2"` cleans to `"1-2"`: the leading dash goes, the inner one stays |
| `ServerParser.ExampleTeams` | serverParser.js:50-51 | `" Sashi.A"` trims to the tracked name and a name without white space is kept |
| `ServerParser.TournamentLinkParts` | serverParser.js:96 | the link starts with `https://liquipedia.net` and continues with the href, or with `undefined` when there is no href |
| `ServerParser.MatchRecord` | serverParser.js:83-97 | every record built is `Going` exactly when its date is a valid time strictly before now |
| `ServerParser.UnparseableIsUpcoming` | serverParser.js:83-86 | a countdown the date parser rejects gives an Invalid Date and an `Upcoming` match |
| `ServerParser.TrackedEnemy` | serverParser.js:53-59 | an enemy exists iff one side is `Sashi.A`; the enemy is the other side; it is `Sashi.A` itself iff both sides are `Sashi.A` |
| `ServerParser.TrackedRecord` | serverParser.js:50-63 | a table yields a record iff its trimmed left or right team is `Sashi.A`; that record carries the game label and keeps the status invariant |
| `ServerParser.TrackedRecordFields` | serverParser.js:50-97 | a kept table's record names the opposite side (left checked first), and takes its date from the cleaned countdown, its format, tournament name and link from the table |
| `ServerParser.TrackedRecords` | serverParser.js:44-102 | `parseMatches` returns at most one record per table; every record has the given game and keeps the status invariant |
| `ServerParser.Positions` | serverParser.js:63 | the positions of the elements passing a test, strictly ascending and exactly those elements; applied to the tracked-team test it lists the tables `parseMatches` keeps |
| `ServerParser.TrackedRecordsSelect` | serverParser.js:44-102 | the k-th record is the record of the k-th kept table: filter then map, in table order, nothing from skipped tables |
| `ServerParser.TrackedRecordsAppend` | serverParser.js:44-46 | the list for tables `a + b` is the list for `a` followed by the list for `b` |
| `ServerParser.OneTrackedTable` | serverParser.js:44-98 | a page with one table, tracked team on the left and a date before now, yields exactly one `Going` record with the expected fields |
| `ServerParser.ParseMatches` | serverParser.js:39-105 | the loop returns the reference list: at most one record per table, game label and status invariant on every record |
| `ServerParser.DotaRecords` | serverParser.js:107-158 | `parseDota` yields exactly one record per table |
| `ServerParser.DotaRecordsAt` | serverParser.js:112-155 | the i-th Dota record is the record of the i-th table, so table order is kept |
| `ServerParser.DotaRecordsFields` | serverParser.js:118-153 | every Dota record is labelled `Dota 2` and keeps the status invariant; its enemy is the right team iff the left is `B8` or both sides match; with no `B8` on the left it is the left team; its date is the clipped parse of the cleaned countdown, and its format, tournament name and link (site root plus href) come from the table |
| `ServerParser.ParseDota` | serverParser.js:107-158 | the loop returns the reference list: one record per table, each labelled `Dota 2` with the status invariant |
| `ServerParser.Aggregate` | serverParser.js:171 | the concatenation has the summed length and holds the CS:GO, Dota and Valorant lists whole, in that order |
| `ServerParser.AggregateGames` | serverParser.js:171 | in the concatenation, CS:GO records come first, then Dota records, then Valorant records |
| `ServerParser.GetMatches` | serverParser.js:160-172 | the result is CS:GO's tracked list, Dota's list, then Valorant's tracked list; every record keeps the status invariant and sits in its game's block |

## Left out

- HTTP fetching with axios (serverParser.js:40, 108): network I/O; each page enters the model as its sequence of rows.
- Cheerio loading and the CSS selectors (serverParser.js:9-18, 43-51, 64-81, 112-135): a foreign library over external markup; `Row` holds what the selectors read.
- `Date.parse`: a foreign natural-language parser; it enters as the opaque parameter `parse`.
- `Date.now`: read once per table in the code and once per call in the model (the parameter `now`). A clock that advances during one request is not modelled.
- The express server, the `/matches` route, the 500 error mapping, CORS and `listen` (serverParser.js:1-37): HTTP plumbing.
- A rejected fetch aborting the whole request: promise rejection and `async`/`await` sequencing are not modelled, so `GetMatches` always returns a list.
- `console.log` calls: output only.
- The page URLs (serverParser.js:20-22): configuration with no behaviour.
- Strings are sequences of Unicode scalar values rather than UTF-16 code units. This does not change `trim` or the dash removal, because every character they match lies in the Basic Multilingual Plane.
- The `Date` objects in the records are represented by their time value. The JSON serialisation of a record is not modelled.
