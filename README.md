# Time server, modelled in Dafny

The Node.js time server answers one route, `/api/currenttime`. For that route it returns the local date and time as a small JSON object. Every other request target gets an empty 404. This project models the server's own logic in `timeserver.dfy`:

- `zeroFill`, the two-digit padding;
- `now`, the five-field record built from the clock;
- the JSON text written as the response body;
- the route decision in the request callback.

The clock reading and the HTTP request are inputs of the model. The response is a value.

The file has three modules:

- `Wrappers`: an `Option` type usable with `:-`.
- `Decimal`: rendering integers to decimal, as JavaScript's `String(n)` and `JSON.stringify` write integral numbers, and reading them back.
- `TimeServer`:
  - `ZeroFill`;
  - the clock reading `LocalTime` (what `getFullYear`, `getMonth`, `getDate`, `getHours` and `getMinutes` return);
  - the record `TimeSnapshot` and `Now`;
  - the body (`Serialize`, `Body`);
  - a parser for exactly that body shape (`ParseJson`, `ParseBody`), which is the partner of the serialiser in the round-trip lemmas;
  - `ReadClock`, which inverts `Now`;
  - the handler `Handle`, and `Serve`, which follows the callback step by step.

Three choices follow the code exactly:

- `getFullYear()` is passed through unpadded (timeServer.js:13), so a year need not have four digits. `LocalTime.year` is any integer, and `JSON.stringify` writes it as a plain decimal number, signed when negative.
- `JSON.stringify` writes the keys in insertion order `year, month, date, hour, minute` (timeServer.js:12-18, 30), so the model fixes that order.
- `zeroFill` adds no padding at 100 and above, so `ZeroFill` is defined on all naturals. For 100 and above the result has three or more characters.

## Model

| member | source | states |
|---|---|---|
| `Decimal.NatToString` | JavaScript/Time_Server_Nodejs/timeServer.js:6 | the rendering `'' + i` of a natural is a non-empty string of digits with no leading zero (except for 0 itself); it has one digit exactly when the number is below 10, and two exactly when it is 10 to 99 |
| `Decimal.ParseNatToString` | JavaScript/Time_Server_Nodejs/timeServer.js:6 | reading a rendered natural back as decimal gives the number |
| `Decimal.IntToString` | JavaScript/Time_Server_Nodejs/timeServer.js:30 | the year read at line 13 is rendered as `JSON.stringify` writes a number: it starts with `-` exactly when the year is negative; the rest is at least one digit, with no leading zero; a leading `0` occurs only as the whole text `0` |
| `Decimal.ParseIntToString` | JavaScript/Time_Server_Nodejs/timeServer.js:30 | the unquoted year's text, followed by any text that does not start with a digit, reads back as the year and leaves that text untouched |
| `TimeServer.ZeroFill` | JavaScript/Time_Server_Nodejs/timeServer.js:5-7 | below 10 the result is `0` and then the number's single digit; from 10 up it is the plain decimal rendering; the result has length 2 exactly when the number is below 100, and is all digits |
| `TimeServer.ZeroFillRoundTrip` | JavaScript/Time_Server_Nodejs/timeServer.js:5-7 | reading a padded number back as decimal gives the number |
| `TimeServer.Now` | JavaScript/Time_Server_Nodejs/timeServer.js:10-19 | the record's year is the clock's year, unpadded; the four string fields are digit strings; for a valid clock reading each of them has exactly two characters |
| `TimeServer.ReadClockNow` | JavaScript/Time_Server_Nodejs/timeServer.js:12-18 | the record loses nothing: the month field denotes month index + 1, the date, hour and minute fields denote their own values, so reading the record back gives the clock reading |
| `TimeServer.NowFieldRanges` | JavaScript/Time_Server_Nodejs/timeServer.js:14-17 | for a valid clock reading: the month is two digits denoting 1 to 12 ("01" to "12"); the date is two digits denoting 1 to 31; the hour is two digits denoting 0 to 23; the minute is two digits denoting 0 to 59 |
| `TimeServer.Serialize` | JavaScript/Time_Server_Nodejs/timeServer.js:30 | the JSON text of the record starts with `{` and ends with `}` |
| `TimeServer.SerializeHasNoNewline` | JavaScript/Time_Server_Nodejs/timeServer.js:30 | the JSON text contains no newline |
| `TimeServer.Body` | JavaScript/Time_Server_Nodejs/timeServer.js:30 | the body is the JSON text followed by one `\n`, which is its last character and the only newline in it |
| `TimeServer.BodyText` | JavaScript/Time_Server_Nodejs/timeServer.js:30 | for every record, the body is exactly the literal text `{"year":`, the year's rendering, then `,"month":`, `,"date":`, `,"hour":` and `,"minute":`, each followed by its value in double quotes, then `}` and `\n` |
| `TimeServer.ParseJsonRoundTrip` | JavaScript/Time_Server_Nodejs/timeServer.js:30 | parsing the JSON text of a record with digit-string fields gives that record back |
| `TimeServer.ParseBodyRoundTrip` | JavaScript/Time_Server_Nodejs/timeServer.js:30 | parsing a body gives the record back: the keys come in insertion order, the year is unquoted, the other fields are quoted, and one newline ends the body |
| `TimeServer.NowExample` | JavaScript/Time_Server_Nodejs/timeServer.js:10-19 | the clock reading 2024, month index 2, day 5, 09:07 gives the record 2024, "03", "05", "09", "07" |
| `TimeServer.BodyExample` | JavaScript/Time_Server_Nodejs/timeServer.js:12-18 | for local time 2024-03-05 09:07 the body is `{"year":2024,"month":"03","date":"05","hour":"09","minute":"07"}` followed by `\n` |
| `TimeServer.Handle` | JavaScript/Time_Server_Nodejs/timeServer.js:25-34 | status 200 exactly when the raw target equals `/api/currenttime`; otherwise 404; a Content-Type is present exactly on 200, and it is `application/json`; the 200 body is the body of `Now` of the clock and parses back to that record; the 404 body is empty |
| `TimeServer.HandleRecoversClock` | JavaScript/Time_Server_Nodejs/timeServer.js:25-30 | on a hit, decoding the body and undoing the month offset gives back the clock reading used |
| `TimeServer.HandleIgnoresMethod` | JavaScript/Time_Server_Nodejs/timeServer.js:22-35 | responses depend only on the target and the clock, never on the HTTP method; on a miss they do not depend on the clock either; the same target and clock give the same response |
| `TimeServer.NearMissesAreNotFound` | JavaScript/Time_Server_Nodejs/timeServer.js:25 | `/api/currenttime/`, `/api/currenttime?x=1`, `/` and `/unknown` all give 404 with no Content-Type and an empty body, under any method |
| `TimeServer.Serve` | JavaScript/Time_Server_Nodejs/timeServer.js:22-35 | the callback's steps produce the response `Handle` specifies: the record is built only on an exact match, and a present record selects the 200 branch |

## Left out

- The HTTP server itself (`http.createServer`, `server.listen`), the actual network writes of `res.writeHead` and `res.end`, and the unused `url` import: network I/O through Node's library. `Response` stands for what the callback passes to `writeHead` and `end`. Headers that Node adds by itself (Date, Connection, Content-Length) are not modelled.
- Reading `new Date()` and the local-time accessors: the ambient clock and time zone. The accessors' results are the parameters of `LocalTime`. `LocalTime.Valid` states their ranges for the lemmas that need them; it does not check day against month length.
- The source reads the clock only when the route matches. The model takes the reading as a parameter of `Handle` and `Serve` and uses it only on that branch.
- General `JSON.stringify`: only the fixed five-field object is modelled. `Serialize` requires the string fields to be digit strings. Those need no escaping, and they are what `Now` always produces.
- Numbers outside the safe-integer range, and the exponent notation JavaScript uses for very large numbers. The years a `Date` can hold are far inside that range.
- `zeroFill` on negative or non-integer input (`-5` gives `"0-5"`). The code never calls it that way, so `ZeroFill` takes naturals.
- `ParseBody` and `ReadClock` are reading functions of the model, not of the server. The round trips are proved from rendering to reading only; the parser also accepts texts that the server never writes, such as a year with leading zeros.
- Parsing the port from the command line with `Number(process.argv[2])`, and the startup `console.log`: process plumbing.
- Concurrent handling of requests: the HTTP runtime provides it, and no request shares state with another.
