# Contest-Alert digest core in Dafny

Contest-Alert collects upcoming programming contests from LeetCode and
Codeforces and emails a daily HTML digest: one card per contest, grouped by
platform, with a coloured platform badge, the contest name, its start time,
a duration label, a relative-time badge ("Started", "in 2d 5h", "in 3h",
"in 45m") and a link. This project models the logic behind that digest and
the record mapping that feeds it:

- `email_sender.py`: `format_duration`, `get_platform_color`,
  `parse_time_difference`, `generate_contest_cards` and `send_email_to_me`.
- `get_data.py`: the comprehensions of `fetch_contest_data` that filter and
  map already-decoded upstream records into `Contest` records.

Modules:

- `Wrappers` (wrappers.dfy): `Option`.
- `Text` (text.dfy):
  - decimal rendering of integers and its reader;
  - ASCII `lower`/`capitalize`;
  - single-character `replace`;
  - Python's `str.strip()`, over the same whitespace set as `str.isspace()`.
- `Timestamps` (timestamps.dfy):
  - the `"%d %b %Y %H:%M:%S"` format, as a renderer and as the `strptime` reader;
  - Python's calendar: leap years, month lengths, and the ordinal day count;
  - instants in microseconds.
- `EmailSender` (email_sender.dfy):
  - duration labels;
  - platform colours;
  - the relative-time badge;
  - cards, where `GenerateCards` is a method with the source's nested loops, proved equal to the specification function `CardsOf`;
  - the send decision, where `SendEmailToMe` is a method over a `Mailer` object that logs every message it hands to the transport.
- `GetData` (get_data.dfy):
  - the `phase == "BEFORE"` filter;
  - the LeetCode slug link and the Codeforces id link;
  - the per-record field copying;
  - the three-key result.

The clock (`datetime.now()`) is a parameter. `now` is a `Moment`: a
`DateTime` plus a microsecond part. Cards take its reading as microseconds
since 0001-01-01 (`NowMicros`), so the sub-second "Started" case and
`timedelta`'s floor normalisation are exact. The environment variable
`MY_EMAIL` is the parameter `myEmail: Option<string>`. The decoded API
payloads are the parameters of `FetchContestData`.

The two source files disagree in places; the model follows each as written:

- `get_data.py` copies `start_time` as the upstream integer. It does not normalise it to a display string.
- `get_data.py` copies `duration` as sent, which for Codeforces is seconds. `format_duration` reads its argument as minutes, so a two-hour Codeforces round (7200) would be labelled "120h".
- `email_sender.py` reads each platform's entry as a record with `success` and `contests`, whose `start_time` is a display string. `get_data.py` returns plain lists with integer start times. The two sides are modelled with their own record types (`EmailSender.ContestEntry`, `GetData.Contest`).

## Model

| member | source | states |
|---|---|---|
| EmailSender.FormatDurationRoundTrip | email_sender.py:53-58 | the label reads back (`ReadDuration`) to the minute count for every non-negative count, and to `minutes % 60` for a negative one |
| EmailSender.FormatDurationShapes | email_sender.py:53-58 | the label is "{m}m" below an hour, "{h}h" on whole hours, "{h}h {m}m" otherwise, with h = minutes // 60 and m = minutes % 60 |
| EmailSender.PlatformColor | email_sender.py:61-67 | the three known platforms get their fixed backgrounds, any other key gets #4F46E5, and the text colour is always #ffffff |
| EmailSender.Classify | email_sender.py:76-88 | negative difference: Started. At least one day: days and hours, truncated, with the difference between the bounds they name. At least one hour: hours. Otherwise: minutes, each within its bounds |
| EmailSender.BadgeText | email_sender.py:76-88 | the text is "Started" exactly for a started contest and starts with "in " otherwise |
| EmailSender.BadgeRoundTrip | email_sender.py:76-88 | every badge text reads back (`ReadBadge`) to its badge: "in {d}d {h}h" to those days and hours, "in {h}h" to the hours, "in {m}m" to the minutes |
| EmailSender.TimeUntil | email_sender.py:70-90 | empty exactly when the stripped start time does not parse. "Started" exactly when the parsed instant is before now. Otherwise an "in ..." label. For a start time that parses, the text reads back to the `Classify` badge of the time left, so it names exactly those days and hours, hours, or minutes |
| EmailSender.StartedIffBefore | email_sender.py:72-77 | "Started" holds exactly when the contest's datetime is chronologically before the clock reading, or equal to it with a positive microsecond part |
| EmailSender.CardContents | email_sender.py:100-168 | a card shows the platform colours, the platform name equal to the key up to case, and the contest's name, start time and link verbatim. Its duration label reads back to the minutes. It has a badge exactly when the start time parses; the badge is `parse_time_difference`'s label for the start time, and says "Started" exactly when that instant is past |
| EmailSender.GenerateCards | email_sender.py:93-169 | the nested loops produce exactly `CardsOf`: for each platform in order, skipped unless it succeeded with contests, one card per contest in order |
| EmailSender.CardCount | email_sender.py:96-179 | the number of cards equals `total_contests`, the sum of contest counts over successful platforms |
| EmailSender.EntriesCount | email_sender.py:96-179 | the listed contests number `total_contests` |
| EmailSender.EntryAt | email_sender.py:96-103 | contest j of platform i is listed at position (contests of the platforms before i) + j |
| EmailSender.MapEntriesAt | email_sender.py:96-103 | whatever is made per listed contest comes out at that same position |
| EmailSender.CardAt | email_sender.py:96-104 | the card at position (contests of the platforms before i) + j is the card of contest j of platform i |
| EmailSender.CardsOfAppend | email_sender.py:96-103 | the cards of two platform sequences in a row are the cards of the first followed by those of the second |
| EmailSender.EntriesAppend | email_sender.py:96-103 | the listed contests of two platform sequences in a row are those of the first followed by those of the second |
| EmailSender.TotalAppend | email_sender.py:177-179 | `total_contests` of two platform sequences in a row is the sum of theirs |
| EmailSender.FailedPlatformIgnored | email_sender.py:97-98 | removing a failed platform leaves the cards unchanged |
| EmailSender.FailedEntriesIgnored | email_sender.py:97-98 | removing a failed platform leaves the listed contests unchanged |
| EmailSender.FailedTotalIgnored | email_sender.py:177-179 | removing a failed platform leaves `total_contests` unchanged |
| EmailSender.Mailer.SendEmail | email_sender.py:27-38 | exactly one message (receiver, subject, body) is appended to the transport log |
| EmailSender.SendEmailToMe | email_sender.py:172-236 | with no contest: returns without sending, whatever the recipient. Otherwise a missing or empty recipient is the ValueError outcome with no send, and a present one gets exactly one message: subject "🏆 Contest Update: {total} events on {date}", and a body holding the date, the total and the cards. A sent digest has as many cards as its total |
| EmailSender.DateLabelReads | email_sender.py:186 | the date line is "Mon DD, YYYY" of the clock's date: its first three characters match that month, the next two digits read as the day, and the text after ", " reads as the year |
| EmailSender.SubjectRoundTrip | email_sender.py:188 | the subject reads back (`ReadSubject`) to the event count and the date line it was built from |
| Timestamps.ParseRender | email_sender.py:72 | any valid datetime rendered as "DD Mon YYYY HH:MM:SS", with any whitespace around it, parses back to itself |
| Timestamps.ParseIsRender | email_sender.py:72 | every accepted string strips to the rendering of the parsed datetime, up to the case of the month name |
| Timestamps.ParseFields | email_sender.py:72 | only calendar-valid datetimes are produced |
| Timestamps.MonthNumber | email_sender.py:72 | the month name is matched ignoring case, and an unmatched name matches no month |
| Timestamps.MonthNumberOfName | email_sender.py:72 | each English month abbreviation reads as its month number |
| Timestamps.SecondsOrder | email_sender.py:74-76 | the seconds count that datetime subtraction works on orders datetimes chronologically |
| Timestamps.DayNumberMonotone | email_sender.py:74 | the ordinal day count grows strictly with the calendar date |
| Timestamps.YearLength | email_sender.py:74 | the first days of years y and y + 1 are 365 days apart, or 366 when y is a leap year |
| Timestamps.LeapDays | email_sender.py:74 | the leap-day count grows by one exactly at a leap year |
| Text.StripSlice | email_sender.py:72 | `strip()` keeps a slice of its input and drops only whitespace on either side |
| Text.StripPadded | email_sender.py:72 | `strip()` removes exactly the whitespace around text whose ends are not whitespace |
| Text.CapitalizeKeepsLetters | email_sender.py:101 | `capitalize()` changes only letter case |
| Text.NatToStringRoundTrip | email_sender.py:57-58 | the decimal rendering of a natural number reads back to it |
| Text.IntToStringRoundTrip | get_data.py:37 | the decimal rendering of any integer, sign included, reads back to it |
| Text.ReplaceChar | get_data.py:28 | every occurrence of the character is replaced and every other character is kept, at the same position |
| GetData.SlugShape | get_data.py:28 | the slug has the title's length and no space, and each position holds '-' for a space and the lower-cased character otherwise |
| GetData.SlugIdempotent | get_data.py:28 | slugging a slug changes nothing |
| GetData.LeetCodeLink | get_data.py:28 | the link is the contest prefix, then the slug, then a closing '/' |
| GetData.LeetCodeLinkSlug | get_data.py:28 | the slug is recovered from the link between the prefix and the closing '/' |
| GetData.LeetCodeLinkIgnoresCase | get_data.py:28 | titles that differ only in letter case get the same link |
| GetData.CodeforcesLink | get_data.py:37 | the link starts with "https://codeforces.com/contests/" and goes on past it |
| GetData.CodeforcesLinkId | get_data.py:37 | the number after the prefix reads back to the contest id |
| GetData.CodeforcesLinkInjective | get_data.py:37 | two contests share a link exactly when they share an id |
| GetData.LeetCodeContests | get_data.py:23-31 | one contest per LeetCode record, in feed order, with name, start time and duration copied without conversion and the slug link |
| GetData.UpcomingMembers | get_data.py:18 | the filter keeps exactly the records whose phase is "BEFORE" |
| GetData.UpcomingAppend | get_data.py:18 | the filter works record by record, so it keeps feed order |
| GetData.UpcomingIdempotent | get_data.py:18 | filtering twice is filtering once |
| GetData.CodeforcesContests | get_data.py:32-40 | one contest per upcoming Codeforces record, in feed order, with name, start time and duration copied without conversion and the id link |
| GetData.UpcomingListed | get_data.py:32-40 | every upcoming record's contest is in the Codeforces list |
| GetData.ListedUpcoming | get_data.py:32-40 | every contest in the Codeforces list comes from an upcoming record |
| GetData.CodeforcesFromUpcoming | get_data.py:32-40 | a contest is in the Codeforces list exactly when it is the contest of an upcoming record |
| GetData.FetchContestData | get_data.py:22-42 | the keys are exactly "leetcode", "codeforces" and "codechef", and "codechef" is empty. The LeetCode list maps every record in order. The Codeforces list maps the upcoming records in order, and holds exactly their contests |

## Left out

- SMTP and SSL (email_sender.py:29-38): `Mailer.SendEmail` only records the message. The transport, its 5-second retry repeated on every further error 10060 (`send_email` calls itself, so retries go on until the recursion limit) and the HTTP 500 it raises for any other error (email_sender.py:39-46) are not modelled; a send always succeeds.
- The `EmailSender` constructor (email_sender.py:18-25) reads `SENDER_EMAIL` and `EMAIL_PASSWORD` and raises ValueError when the password is missing or empty; `SENDER_EMAIL` is never checked. This runs at import time, before any of the modelled code, and is not modelled.
- The HTML markup of cards and body (email_sender.py:106-168, 189-226): a card is the record of the values it shows, and the body is the date, the total and the cards.
- Console output (email_sender.py:182, 231, 233) is not modelled.
- The scheduler and HTTP routes (email_sender.py:239 onwards) and `main.py` are not modelled: they are framework wiring with no logic beyond a key lookup.
- HTTP fetches and JSON decoding (get_data.py:12-17): the decoded records are parameters. Field types are taken as decoded: ints stay ints and strings stay strings.
- CodeChef fetching does not exist in the source (get_data.py:20); its list is always empty.
- EmailSender.SendEmailToMe: one clock reading serves every card and the date line, whereas the source reads `datetime.now()` anew for each card and once more for the date. Readings microseconds apart can differ, and this is not captured.
- Timestamps.Parse: accepts exactly the fixed-width form "DD Mon YYYY HH:MM:SS" with single spaces. `strptime` also accepts one-digit days, hours, minutes and seconds, runs of whitespace between fields, and non-ASCII decimal digits (its `\d` is not limited to ASCII and `int()` reads such digits); for such strings the model reports no parse, so `TimeUntil` gives "" where the source would show a badge.
- Text.Lower and Text.Capitalize: only ASCII letters change case. Python also maps non-ASCII letters, so slugs and platform names with such letters differ.
- EmailSender.CardContents: states the platform name equal to the key up to letter case. The exact form is `Text.Capitalize`'s own contract: first character upper case, the rest lower case.
- EmailSender.DateLabel: renders the year with `NatToString`, which has no zero padding, so years below 1000 print with fewer than four digits; the platform's `strftime("%Y")` may pad them.
- Errors raised by `send_email` propagate out of `send_email_to_me` (email_sender.py:232-234); with an always-successful transport this path is absent.
- GetData.FetchContestData: the result is a `map`, which has no key order. The source's dict keeps insertion order (leetcode, codeforces, codechef, get_data.py:22-42), and `generate_contest_cards` and `.items()` follow it; the card order over platforms is modelled on the `EmailSender` side, as the sequence of (platform, result) pairs.
