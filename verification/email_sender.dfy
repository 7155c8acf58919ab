/**
 * The digest pipeline of the contest notifier: the duration and relative-time
 * labels, the platform badge colours, one card per upcoming contest, and the
 * gate that decides whether the daily digest is sent and to whom.
 *
 * The HTML of the digest is modelled as structured `Card` and `Digest`
 * values; the mail transport as a `Mailer` object whose ghost `sent` log
 * records each call of `send_email`.
 */
module EmailSender {
  import opened Wrappers
  import opened Text
  import opened Timestamps

  // ---- durations ----

  /** `format_duration`: "{h}h {m}m", "{h}h" or "{m}m" from a count of minutes (floor division by 60). */
  function FormatDuration(minutes: int): string {
    var hours := minutes / 60;
    var mins := minutes % 60;
    if hours > 0 then
      (if mins > 0 then NatToString(hours) + ("h " + NatToString(mins) + "m") else NatToString(hours) + "h")
    else NatToString(mins) + "m"
  }

  /** Reads "{n}" followed by the single character `unit` back into n. */
  function ReadCount(t: string, unit: char): Option<nat> {
    var n := DigitPrefix(t);
    if n > 0 && t[n..] == [unit] then Some(ParseNat(t[..n])) else None
  }

  /** What follows the leading number `n` of a label: "m", "h", or "h " and a minutes part. */
  function ReadUnits(n: nat, rest: string): Option<int> {
    if rest == "m" then Some(n)
    else if rest == "h" then Some(60 * n)
    else if |rest| >= 2 && rest[0] == 'h' && rest[1] == ' ' then
      match ReadCount(rest[2..], 'm')
      case Some(m) => Some(60 * n + m)
      case None => None
    else None
  }

  /** Reads a duration label back into minutes; None for text `FormatDuration` never writes. */
  function ReadDuration(s: string): Option<int> {
    var k := DigitPrefix(s);
    if k == 0 then None else ReadUnits(ParseNat(s[..k]), s[k..])
  }

  lemma ReadNumberThen(d: string, tail: string)
    requires AllDigits(d) && d != [] && tail != [] && !IsDigit(tail[0])
    ensures DigitPrefix(d + tail) == |d| && (d + tail)[..|d|] == d && (d + tail)[|d|..] == tail
  {
    DigitPrefixOf(d, tail);
  }

  lemma ReadLeading(d: string, tail: string)
    requires AllDigits(d) && d != [] && tail != [] && !IsDigit(tail[0])
    ensures ReadDuration(d + tail) == ReadUnits(ParseNat(d), tail)
  {
    ReadNumberThen(d, tail);
  }

  lemma ReadCountText(ds: string, unit: char)
    requires AllDigits(ds) && ds != [] && !IsDigit(unit)
    ensures ReadCount(ds + [unit], unit) == Some(ParseNat(ds))
  {
    ReadNumberThen(ds, [unit]);
  }

  lemma ReadMinutesLabel(m: nat)
    ensures ReadDuration(NatToString(m) + "m") == Some(m)
  {
    NatToStringRoundTrip(m);
    ReadLeading(NatToString(m), "m");
  }

  lemma ReadHoursLabel(h: nat)
    ensures ReadDuration(NatToString(h) + "h") == Some(60 * h)
  {
    NatToStringRoundTrip(h);
    ReadLeading(NatToString(h), "h");
  }

  lemma UnitsHoursMinutes(h: nat, ms: string, m: nat)
    requires AllDigits(ms) && ms != [] && ParseNat(ms) == m
    ensures ReadUnits(h, "h " + ms + "m") == Some(60 * h + m)
  {
    var tail := "h " + ms + "m";
    assert tail[0] == 'h' && tail[1] == ' ' && tail[2..] == ms + "m";
    assert tail != "m" && tail != "h" by { assert |tail| > 2; }
    ReadCountText(ms, 'm');
  }

  lemma ReadHoursMinutesLabel(h: nat, m: nat)
    ensures ReadDuration(NatToString(h) + ("h " + NatToString(m) + "m")) == Some(60 * h + m)
  {
    NatToStringRoundTrip(h);
    NatToStringRoundTrip(m);
    var tail := "h " + NatToString(m) + "m";
    assert tail[0] == 'h';
    ReadLeading(NatToString(h), tail);
    UnitsHoursMinutes(h, NatToString(m), m);
  }

  /**
   * The label determines the duration: reading it back gives the minutes
   * (for a negative count, the `minutes % 60` the label shows).
   */
  lemma FormatDurationRoundTrip(minutes: int)
    ensures ReadDuration(FormatDuration(minutes)) == Some(if minutes >= 0 then minutes else minutes % 60)
  {
    if minutes >= 60 && minutes % 60 > 0 {
      HoursMinutesRoundTrip(minutes);
    } else if minutes >= 60 {
      HoursRoundTrip(minutes);
    } else {
      MinutesRoundTrip(minutes);
      assert minutes >= 0 ==> minutes % 60 == minutes;
    }
  }

  lemma HoursMinutesRoundTrip(minutes: int)
    requires minutes >= 60 && minutes % 60 > 0
    ensures ReadDuration(FormatDuration(minutes)) == Some(minutes)
  {
    var hours, mins := minutes / 60, minutes % 60;
    assert FormatDuration(minutes) == NatToString(hours) + ("h " + NatToString(mins) + "m");
    ReadHoursMinutesLabel(hours, mins);
  }

  lemma HoursRoundTrip(minutes: int)
    requires minutes >= 60 && minutes % 60 == 0
    ensures ReadDuration(FormatDuration(minutes)) == Some(minutes)
  {
    var hours := minutes / 60;
    assert FormatDuration(minutes) == NatToString(hours) + "h";
    ReadHoursLabel(hours);
  }

  lemma MinutesRoundTrip(minutes: int)
    requires minutes < 60
    ensures ReadDuration(FormatDuration(minutes)) == Some(minutes % 60)
  {
    var mins := minutes % 60;
    assert FormatDuration(minutes) == NatToString(mins) + "m";
    ReadMinutesLabel(mins);
  }

  /** The three shapes of the label, by case. */
  lemma FormatDurationShapes(minutes: nat)
    ensures minutes < 60 ==> FormatDuration(minutes) == NatToString(minutes) + "m"
    ensures minutes >= 60 && minutes % 60 == 0 ==> FormatDuration(minutes) == NatToString(minutes / 60) + "h"
    ensures minutes >= 60 && minutes % 60 != 0 ==>
      FormatDuration(minutes) == NatToString(minutes / 60) + "h " + NatToString(minutes % 60) + "m"
  {
    var hours, mins := minutes / 60, minutes % 60;
    if hours > 0 && mins > 0 {
      HoursMinutesText(NatToString(hours), NatToString(mins));
    }
  }

  lemma HoursMinutesText(h: string, m: string)
    ensures h + ("h " + m + "m") == h + "h " + m + "m"
  {
  }

  // ---- platform colours ----

  datatype Colors = Colors(bg: string, text: string)

  const DefaultColors := Colors("#4F46E5", "#ffffff")

  const PlatformColors: map<string, Colors> := map[
    "leetcode" := Colors("#FFA116", "#ffffff"),
    "codeforces" := Colors("#1F8ACB", "#ffffff"),
    "codechef" := Colors("#5B4638", "#ffffff")
  ]

  /** `get_platform_color`: the badge colours of a platform key, the indigo default for any other key. */
  function PlatformColor(platform: string): (c: Colors)
    ensures c.text == "#ffffff"
    ensures platform == "leetcode" ==> c.bg == "#FFA116"
    ensures platform == "codeforces" ==> c.bg == "#1F8ACB"
    ensures platform == "codechef" ==> c.bg == "#5B4638"
    ensures platform !in {"leetcode", "codeforces", "codechef"} ==> c.bg == "#4F46E5"
  {
    if platform in PlatformColors then PlatformColors[platform] else DefaultColors
  }

  // ---- relative time ----

  /** What the relative-time badge says. */
  datatype Badge = Started | DaysHours(days: nat, hours: nat) | Hours(hours: nat) | Minutes(minutes: nat)

  /**
   * Classifies `contest_time - now`, given in microseconds, the way
   * `parse_time_difference` does with the timedelta's `days` and `seconds`.
   * The badge names the remaining time truncated to its largest units
   * (a day is 86_400_000_000 microseconds, an hour 3_600_000_000, a minute 60_000_000).
   */
  function Classify(diff: int): (b: Badge)
    ensures b.Started? <==> diff < 0
    ensures b.DaysHours? <==> diff >= 86_400_000_000
    ensures b.Hours? <==> 3_600_000_000 <= diff < 86_400_000_000
    ensures b.Minutes? <==> 0 <= diff < 3_600_000_000
    ensures b.DaysHours? ==>
      && b.days >= 1 && b.hours < 24
      && b.days * 86_400_000_000 + b.hours * 3_600_000_000 <= diff
      && diff < b.days * 86_400_000_000 + (b.hours + 1) * 3_600_000_000
    ensures b.Hours? ==>
      1 <= b.hours < 24 && b.hours * 3_600_000_000 <= diff < (b.hours + 1) * 3_600_000_000
    ensures b.Minutes? ==>
      b.minutes < 60 && b.minutes * 60_000_000 <= diff < (b.minutes + 1) * 60_000_000
  {
    if diff < 0 then Started
    else
      // timedelta normalisation: days * 86400 + seconds is the floor of the difference in seconds
      var whole := diff / 1_000_000;
      var days := whole / 86400;
      var seconds := whole % 86400;
      var hours := seconds / 3600;
      if days > 0 then DaysHours(days, hours)
      else if hours > 0 then Hours(hours)
      else Minutes((seconds % 3600) / 60)
  }

  /** The badge text: "Started", "in {d}d {h}h", "in {h}h" or "in {m}m". */
  function BadgeText(b: Badge): (s: string)
    ensures s != [] && (s == "Started" <==> b.Started?)
    ensures !b.Started? ==> |s| > 3 && s[..3] == "in "
  {
    match b
    case Started => "Started"
    case _ =>
      var s := "in " + (match b
                        case DaysHours(d, h) => NatToString(d) + "d " + NatToString(h) + "h"
                        case Hours(h) => NatToString(h) + "h"
                        case Minutes(m) => NatToString(m) + "m");
      assert s[0] == 'i' != "Started"[0];
      s
  }

  /** Reads a badge text back: "Started", or "in " followed by an amount; None for text `BadgeText` never writes. */
  function ReadBadge(s: string): Option<Badge> {
    if s == "Started" then Some(Started)
    else if |s| > 3 && s[..3] == "in " then ReadAmount(s[3..])
    else None
  }

  /** Reads "{d}d {h}h", "{h}h" or "{m}m". */
  function ReadAmount(t: string): Option<Badge> {
    var k := DigitPrefix(t);
    if k == 0 then None
    else
      var n, rest := ParseNat(t[..k]), t[k..];
      if rest == "m" then Some(Minutes(n))
      else if rest == "h" then Some(Hours(n))
      else if |rest| >= 2 && rest[0] == 'd' && rest[1] == ' ' then
        match ReadCount(rest[2..], 'h')
        case Some(h) => Some(DaysHours(n, h))
        case None => None
      else None
  }

  lemma ReadAmountSingle(n: nat, unit: char)
    requires unit == 'm' || unit == 'h'
    ensures ReadAmount(NatToString(n) + [unit]) == Some(if unit == 'm' then Minutes(n) else Hours(n))
  {
    NatToStringRoundTrip(n);
    ReadNumberThen(NatToString(n), [unit]);
  }

  lemma ReadAmountDaysHours(d: nat, h: nat)
    ensures ReadAmount(NatToString(d) + ("d " + NatToString(h) + "h")) == Some(DaysHours(d, h))
  {
    NatToStringRoundTrip(d);
    NatToStringRoundTrip(h);
    var rest := "d " + NatToString(h) + "h";
    assert rest[0] == 'd' && rest[1] == ' ' && rest[2..] == NatToString(h) + "h";
    assert rest != "m" && rest != "h" by { assert |rest| > 2; }
    ReadNumberThen(NatToString(d), rest);
    ReadCountText(NatToString(h), 'h');
  }

  /** The badge text determines the badge: reading it back gives the badge. */
  lemma BadgeRoundTrip(b: Badge)
    ensures ReadBadge(BadgeText(b)) == Some(b)
  {
    var s := BadgeText(b);
    if !b.Started? {
      var amount := match b
                    case DaysHours(d, h) => NatToString(d) + "d " + NatToString(h) + "h"
                    case Hours(h) => NatToString(h) + "h"
                    case Minutes(m) => NatToString(m) + "m";
      assert s == "in " + amount && s[3..] == amount;
      match b {
        case DaysHours(d, h) =>
          assert amount == NatToString(d) + ("d " + NatToString(h) + "h");
          ReadAmountDaysHours(d, h);
        case Hours(h) => ReadAmountSingle(h, 'h');
        case Minutes(m) => ReadAmountSingle(m, 'm');
      }
    }
  }

  /**
   * `parse_time_difference`, with `now` the current instant in microseconds
   * (`NowMicros` of the clock reading): "" when the start time does not
   * parse, "Started" exactly when the contest instant is before `now`, an
   * "in ..." label otherwise; a label that reads back to the `Classify`
   * badge of the time left.
   */
  function TimeUntil(startTime: string, now: int): (r: string)
    ensures r == "" <==> Parse(startTime).None?
    ensures r == "Started" <==> Parse(startTime).Some? && Micros(Parse(startTime).value) < now
    ensures r == "" || r == "Started" || (|r| > 3 && r[..3] == "in ")
    ensures Parse(startTime).Some? ==> ReadBadge(r) == Some(Classify(Micros(Parse(startTime).value) - now))
  {
    match Parse(startTime)
    case None => ""
    case Some(contest) =>
      var b := Classify(Micros(contest) - now);
      BadgeRoundTrip(b);
      BadgeText(b)
  }

  /** "Started" is shown exactly when the contest's datetime precedes the clock reading `now`. */
  lemma StartedIffBefore(startTime: string, now: Moment)
    requires ValidMoment(now)
    ensures TimeUntil(startTime, NowMicros(now)) == "Started" <==>
      Parse(startTime).Some? &&
      (Before(Parse(startTime).value, now.clock) || (Parse(startTime).value == now.clock && now.micros > 0))
  {
    if Parse(startTime).Some? {
      var c := Parse(startTime).value;
      SecondsOrder(c, now.clock);
      SecondsOrder(now.clock, c);
      if !Before(c, now.clock) && !Before(now.clock, c) {
        assert c == now.clock;
      }
    }
  }

  // ---- cards ----

  /** A contest as the digest reads it: `start_time` is the display string. */
  datatype ContestEntry = ContestEntry(name: string, startTime: string, duration: int, link: string)

  /** One platform's entry of the aggregate. */
  datatype PlatformResult = PlatformResult(success: bool, contests: seq<ContestEntry>)

  /** One contest card of the digest, as the fields the HTML card shows. */
  datatype Card = Card(
    colors: Colors, platformName: string, name: string, startTime: string,
    duration: string, badge: Option<string>, link: string)

  /** The card for one contest of `platform`, at the instant `now` (microseconds). */
  function MakeCard(platform: string, contest: ContestEntry, now: int): Card {
    var timeUntil := TimeUntil(contest.startTime, now);
    Card(PlatformColor(platform), Capitalize(platform), contest.name, contest.startTime,
         FormatDuration(contest.duration), if timeUntil != "" then Some(timeUntil) else None, contest.link)
  }

  /**
   * What a card shows: the platform's colours and name, the contest's name,
   * start time and link verbatim, a duration label that reads back to the
   * contest's minutes, and a relative-time badge exactly when the start time
   * parses, which is `parse_time_difference`'s label (whose own contract says
   * it reads back to the badge of the time left).
   */
  lemma CardContents(platform: string, contest: ContestEntry, now: int)
    ensures var c := MakeCard(platform, contest, now);
      && (c.badge.Some? <==> Parse(contest.startTime).Some?)
      && (c.badge.Some? ==> (c.badge.value == "Started" <==> Micros(Parse(contest.startTime).value) < now))
      && (c.badge.Some? ==> c.badge.value == TimeUntil(contest.startTime, now))
      && c.startTime == contest.startTime && c.name == contest.name && c.link == contest.link
      && c.colors == PlatformColor(platform) && Lower(c.platformName) == Lower(platform)
      && ReadDuration(c.duration) == Some(if contest.duration >= 0 then contest.duration else contest.duration % 60)
  {
    CardBadge(platform, contest, now);
    CapitalizeKeepsLetters(platform);
    FormatDurationRoundTrip(contest.duration);
  }

  lemma CardBadge(platform: string, contest: ContestEntry, now: int)
    ensures var c := MakeCard(platform, contest, now);
      && (c.badge.Some? <==> Parse(contest.startTime).Some?)
      && (c.badge.Some? ==> (c.badge.value == "Started" <==> Micros(Parse(contest.startTime).value) < now))
      && (c.badge.Some? ==> c.badge.value == TimeUntil(contest.startTime, now))
  {
    var t := TimeUntil(contest.startTime, now);
    assert MakeCard(platform, contest, now).badge == if t != "" then Some(t) else None;
  }

  /** `f` applied to each element of `s`, in order. */
  function Map<A, B>(f: A -> B, s: seq<A>): (r: seq<B>)
    ensures |r| == |s|
    decreases |s|
  {
    if s == [] then [] else Map(f, s[..|s| - 1]) + [f(s[|s| - 1])]
  }

  lemma MapSnoc<A, B>(f: A -> B, s: seq<A>, x: A)
    ensures Map(f, s + [x]) == Map(f, s) + [f(x)]
  {
    assert (s + [x])[..|s|] == s;
  }

  lemma {:induction false} MapAt<A, B>(f: A -> B, s: seq<A>, i: int)
    requires 0 <= i < |s|
    ensures Map(f, s)[i] == f(s[i])
    decreases |s|
  {
    if i < |s| - 1 {
      var init := s[..|s| - 1];
      MapAt(f, init, i);
      assert Map(f, s) == Map(f, init) + [f(s[|s| - 1])];
      assert s[i] == init[i];
    }
  }

  lemma {:induction false} MapAppend<A, B>(f: A -> B, s: seq<A>, t: seq<A>)
    ensures Map(f, s + t) == Map(f, s) + Map(f, t)
    decreases |t|
  {
    if t == [] {
      assert s + t == s;
    } else {
      var init, last := t[..|t| - 1], t[|t| - 1];
      assert s + t == (s + init) + [last];
      MapSnoc(f, s + init, last);
      MapAppend(f, s, init);
      MapSnoc(f, init, last);
      assert t == init + [last];
    }
  }

  /** A contest together with the key of the platform that listed it. */
  type Entry = (string, ContestEntry)

  /** The entries of one platform's contests, in contest order. */
  function PlatformEntries(platform: string, contests: seq<ContestEntry>): (es: seq<Entry>)
    ensures |es| == |contests|
    ensures forall j :: 0 <= j < |contests| ==> es[j] == (platform, contests[j])
  {
    seq(|contests|, j requires 0 <= j < |contests| => (platform, contests[j]))
  }

  /** A platform shows cards when it succeeded and has at least one contest. */
  predicate Shows(result: PlatformResult) {
    result.success && result.contests != []
  }

  /** The contests the digest lists: platforms in order, each platform's contests in order. */
  function Entries(contestData: seq<(string, PlatformResult)>): seq<Entry>
    decreases |contestData|
  {
    if contestData == [] then []
    else
      var (platform, result) := contestData[|contestData| - 1];
      Entries(contestData[..|contestData| - 1])
        + (if Shows(result) then PlatformEntries(platform, result.contests) else [])
  }

  /** The card maker at the instant `now`. */
  function CardFor(now: int): Entry -> Card {
    (e: Entry) => MakeCard(e.0, e.1, now)
  }

  /** All cards of the digest: one card per listed contest, in listing order. */
  function CardsOf(contestData: seq<(string, PlatformResult)>, now: int): seq<Card> {
    Map(CardFor(now), Entries(contestData))
  }

  /** `total_contests`: the number of contests over the platforms that succeeded. */
  function TotalContests(contestData: seq<(string, PlatformResult)>): nat
    decreases |contestData|
  {
    if contestData == [] then 0
    else
      var result := contestData[|contestData| - 1].1;
      TotalContests(contestData[..|contestData| - 1]) + (if result.success then |result.contests| else 0)
  }

  lemma EntriesStep(contestData: seq<(string, PlatformResult)>, i: int)
    requires 0 <= i < |contestData|
    ensures Entries(contestData[..i + 1]) == Entries(contestData[..i])
      + (if Shows(contestData[i].1) then PlatformEntries(contestData[i].0, contestData[i].1.contests) else [])
  {
    assert contestData[..i + 1][..i] == contestData[..i];
  }

  lemma PlatformEntriesStep(done: seq<Entry>, platform: string, contests: seq<ContestEntry>, j: int)
    requires 0 <= j < |contests|
    ensures done + PlatformEntries(platform, contests[..j + 1])
         == done + PlatformEntries(platform, contests[..j]) + [(platform, contests[j])]
  {
    var a, b := PlatformEntries(platform, contests[..j + 1]), PlatformEntries(platform, contests[..j]);
    assert a == b + [(platform, contests[j])];
  }

  /**
   * `generate_contest_cards`: accumulates one card per contest of each
   * platform that succeeded with a non-empty list; `now` is the instant in
   * microseconds.
   */
  method GenerateCards(contestData: seq<(string, PlatformResult)>, now: int) returns (cards: seq<Card>)
    ensures cards == CardsOf(contestData, now)
  {
    cards := [];
    for i := 0 to |contestData|
      invariant cards == Map(CardFor(now), Entries(contestData[..i]))
    {
      var (platform, data) := contestData[i];
      if !data.success || data.contests == [] {
        PlatformSkipped(contestData, i);
        continue;
      }
      var color := PlatformColor(platform);
      var platformName := Capitalize(platform);
      ghost var done := Entries(contestData[..i]);
      NoEntriesYet(done, platform, data.contests);
      for j := 0 to |data.contests|
        invariant cards == Map(CardFor(now), done + PlatformEntries(platform, data.contests[..j]))
      {
        var contest := data.contests[j];
        var timeUntil := TimeUntil(contest.startTime, now);
        var badge := if timeUntil != "" then Some(timeUntil) else None;
        var card := Card(color, platformName, contest.name, contest.startTime,
                         FormatDuration(contest.duration), badge, contest.link);
        CardFields(platform, contest, now);
        AddCard(cards, done, platform, data.contests, j, now, card);
        cards := cards + [card];
      }
      PlatformShown(contestData, i);
    }
    AllPlatforms(contestData, now);
  }

  lemma NoEntriesYet(done: seq<Entry>, platform: string, contests: seq<ContestEntry>)
    ensures done + PlatformEntries(platform, contests[..0]) == done
  {
    assert PlatformEntries(platform, contests[..0]) == [];
  }

  lemma PlatformSkipped(contestData: seq<(string, PlatformResult)>, i: int)
    requires 0 <= i < |contestData| && !Shows(contestData[i].1)
    ensures Entries(contestData[..i + 1]) == Entries(contestData[..i])
  {
    EntriesStep(contestData, i);
  }

  lemma PlatformShown(contestData: seq<(string, PlatformResult)>, i: int)
    requires 0 <= i < |contestData| && Shows(contestData[i].1)
    ensures Entries(contestData[..i + 1])
         == Entries(contestData[..i]) + PlatformEntries(contestData[i].0, contestData[i].1.contests[..|contestData[i].1.contests|])
  {
    EntriesStep(contestData, i);
    assert contestData[i].1.contests[..|contestData[i].1.contests|] == contestData[i].1.contests;
  }

  lemma AllPlatforms(contestData: seq<(string, PlatformResult)>, now: int)
    ensures Map(CardFor(now), Entries(contestData[..|contestData|])) == CardsOf(contestData, now)
  {
    assert contestData[..|contestData|] == contestData;
  }

  lemma CardFields(platform: string, contest: ContestEntry, now: int)
    ensures var timeUntil := TimeUntil(contest.startTime, now);
      MakeCard(platform, contest, now)
        == Card(PlatformColor(platform), Capitalize(platform), contest.name, contest.startTime,
                FormatDuration(contest.duration), if timeUntil != "" then Some(timeUntil) else None, contest.link)
  {
  }

  lemma AddCard(cards: seq<Card>, done: seq<Entry>, platform: string, contests: seq<ContestEntry>, j: int, now: int, card: Card)
    requires 0 <= j < |contests|
    requires cards == Map(CardFor(now), done + PlatformEntries(platform, contests[..j]))
    requires card == MakeCard(platform, contests[j], now)
    ensures cards + [card] == Map(CardFor(now), done + PlatformEntries(platform, contests[..j + 1]))
  {
    PlatformEntriesStep(done, platform, contests, j);
    MapSnoc(CardFor(now), done + PlatformEntries(platform, contests[..j]), (platform, contests[j]));
  }

  /** The digest has exactly `total_contests` cards. */
  lemma CardCount(contestData: seq<(string, PlatformResult)>, now: int)
    ensures |CardsOf(contestData, now)| == TotalContests(contestData)
  {
    EntriesCount(contestData);
  }

  lemma {:induction false} EntriesCount(contestData: seq<(string, PlatformResult)>)
    ensures |Entries(contestData)| == TotalContests(contestData)
    decreases |contestData|
  {
    if contestData != [] {
      EntriesCount(contestData[..|contestData| - 1]);
    }
  }

  /** Entries follow platform order: the entries of a concatenation are the concatenated entries. */
  lemma {:induction false} EntriesAppend(a: seq<(string, PlatformResult)>, b: seq<(string, PlatformResult)>)
    ensures Entries(a + b) == Entries(a) + Entries(b)
    decreases |b|
  {
    if b != [] {
      var b' := b[..|b| - 1];
      var (platform, result) := b[|b| - 1];
      var extra := if Shows(result) then PlatformEntries(platform, result.contests) else [];
      assert (a + b)[..|a + b| - 1] == a + b';
      assert (a + b)[|a + b| - 1] == b[|b| - 1];
      assert Entries(a + b) == Entries(a + b') + extra;
      EntriesAppend(a, b');
      assert Entries(b) == Entries(b') + extra;
    } else {
      assert a + b == a;
    }
  }

  lemma {:induction false} TotalAppend(a: seq<(string, PlatformResult)>, b: seq<(string, PlatformResult)>)
    ensures TotalContests(a + b) == TotalContests(a) + TotalContests(b)
    decreases |b|
  {
    if b != [] {
      var b' := b[..|b| - 1];
      assert (a + b)[..|a + b| - 1] == a + b';
      assert (a + b)[|a + b| - 1] == b[|b| - 1];
      TotalAppend(a, b');
      assert TotalContests(a + b) == TotalContests(a + b') + TotalContests(b) - TotalContests(b');
    } else {
      assert a + b == a;
    }
  }

  /** The cards of a concatenation of platform lists are the concatenated cards. */
  lemma CardsOfAppend(a: seq<(string, PlatformResult)>, b: seq<(string, PlatformResult)>, now: int)
    ensures CardsOf(a + b, now) == CardsOf(a, now) + CardsOf(b, now)
  {
    EntriesAppend(a, b);
    MapAppend(CardFor(now), Entries(a), Entries(b));
  }

  /** Contest `j` of platform `i` is listed right after the contests of the platforms before `i`. */
  lemma {:induction false} EntryAt(contestData: seq<(string, PlatformResult)>, i: int, j: int)
    requires 0 <= i < |contestData| && contestData[i].1.success && 0 <= j < |contestData[i].1.contests|
    ensures TotalContests(contestData[..i]) + j < |Entries(contestData)|
    ensures Entries(contestData)[TotalContests(contestData[..i]) + j] == (contestData[i].0, contestData[i].1.contests[j])
    decreases |contestData|
  {
    var n := |contestData|;
    var init := contestData[..n - 1];
    var (platform, result) := contestData[n - 1];
    var extra := if Shows(result) then PlatformEntries(platform, result.contests) else [];
    assert Entries(contestData) == Entries(init) + extra;
    if i == n - 1 {
      EntriesCount(init);
      assert extra == PlatformEntries(platform, result.contests);
    } else {
      assert init[..i] == contestData[..i];
      EntryAt(init, i, j);
    }
  }

  /**
   * Whatever is made of each listed contest (a card, in the digest) comes out
   * in listing order: the item of contest `j` of platform `i` sits right after
   * the items of the platforms before `i`.
   */
  lemma MapEntriesAt<B>(f: Entry -> B, contestData: seq<(string, PlatformResult)>, i: int, j: int)
    requires 0 <= i < |contestData| && contestData[i].1.success && 0 <= j < |contestData[i].1.contests|
    ensures TotalContests(contestData[..i]) + j < |Map(f, Entries(contestData))|
    ensures Map(f, Entries(contestData))[TotalContests(contestData[..i]) + j]
         == f((contestData[i].0, contestData[i].1.contests[j]))
  {
    EntryAt(contestData, i, j);
    MapAt(f, Entries(contestData), TotalContests(contestData[..i]) + j);
  }

  /**
   * The card of contest `j` of platform `i` sits right after the cards of the
   * platforms before `i`: one card per contest, platform order then contest order.
   */
  lemma CardAt(contestData: seq<(string, PlatformResult)>, now: int, i: int, j: int)
    requires 0 <= i < |contestData| && contestData[i].1.success && 0 <= j < |contestData[i].1.contests|
    ensures TotalContests(contestData[..i]) + j < |CardsOf(contestData, now)|
    ensures CardsOf(contestData, now)[TotalContests(contestData[..i]) + j]
         == MakeCard(contestData[i].0, contestData[i].1.contests[j], now)
  {
    MapEntriesAt(CardFor(now), contestData, i, j);
  }

  /** A platform that failed lists no contest: dropping it leaves the entries unchanged. */
  lemma {:induction false} FailedEntriesIgnored(contestData: seq<(string, PlatformResult)>, i: int)
    requires 0 <= i < |contestData| && !contestData[i].1.success
    ensures Entries(contestData) == Entries(contestData[..i] + contestData[i + 1..])
    decreases |contestData|
  {
    var n := |contestData|;
    var init, last := contestData[..n - 1], contestData[n - 1];
    if i == n - 1 {
      assert contestData[..i] + contestData[i + 1..] == init;
    } else {
      FailedEntriesIgnored(init, i);
      var rest := init[..i] + init[i + 1..];
      assert contestData[..i] + contestData[i + 1..] == rest + [last];
      assert (rest + [last])[..|rest|] == rest;
    }
  }

  /** ... and leaves `total_contests` unchanged. */
  lemma {:induction false} FailedTotalIgnored(contestData: seq<(string, PlatformResult)>, i: int)
    requires 0 <= i < |contestData| && !contestData[i].1.success
    ensures TotalContests(contestData) == TotalContests(contestData[..i] + contestData[i + 1..])
    decreases |contestData|
  {
    var n := |contestData|;
    var init, last := contestData[..n - 1], contestData[n - 1];
    if i == n - 1 {
      assert contestData[..i] + contestData[i + 1..] == init;
    } else {
      FailedTotalIgnored(init, i);
      var rest := init[..i] + init[i + 1..];
      assert contestData[..i] + contestData[i + 1..] == rest + [last];
      assert (rest + [last])[..|rest|] == rest;
    }
  }

  /** A platform that failed contributes no card. */
  lemma FailedPlatformIgnored(contestData: seq<(string, PlatformResult)>, now: int, i: int)
    requires 0 <= i < |contestData| && !contestData[i].1.success
    ensures CardsOf(contestData, now) == CardsOf(contestData[..i] + contestData[i + 1..], now)
  {
    FailedEntriesIgnored(contestData, i);
  }

  // ---- sending ----

  /** The digest body: the date line, the event count and the cards. */
  datatype Digest = Digest(date: string, total: nat, cards: seq<Card>)

  /** One call of `send_email`. */
  datatype Mail = Mail(receiver: string, subject: string, body: Digest)

  /** How `send_email_to_me` ends: returns without sending, sends, or raises ValueError for the recipient. */
  datatype SendOutcome = NothingToSend | Sent | MissingRecipient

  /** The sending side of `EmailSender`; `sent` logs every message handed to the transport. */
  class Mailer {
    ghost var sent: seq<Mail>

    constructor ()
      ensures sent == []
    {
      sent := [];
    }

    /** `send_email`: hands one message to the transport. */
    method SendEmail(receiver: string, subject: string, body: Digest)
      modifies this
      ensures sent == old(sent) + [Mail(receiver, subject, body)]
    {
      sent := sent + [Mail(receiver, subject, body)];
    }
  }

  /** `now.strftime("%b %d, %Y")`. */
  function DateLabel(now: Moment): string
    requires ValidMoment(now)
  {
    MonthNames[now.clock.month - 1] + " " + Pad2(now.clock.day) + ", " + NatToString(now.clock.year)
  }

  /** Where the month, day and year sit in "Mon DD, YYYY". */
  lemma DateLabelFields(mo: string, d: string, y: string)
    requires |mo| == 3 && |d| == 2
    ensures var s := mo + " " + d + ", " + y;
      |s| == 8 + |y| && s[..3] == mo && s[3] == ' ' && s[4..6] == d && s[6..8] == ", " && s[8..] == y
  {
    var s := mo + " " + d + ", " + y;
    assert s == (mo + " " + d + ", ") + y;
  }

  /**
   * The date label reads back to the clock's date: a month name that
   * `MonthNumber` maps to the month, two digits of the day, ", " and the year.
   */
  lemma DateLabelReads(now: Moment)
    requires ValidMoment(now)
    ensures var s := DateLabel(now);
      && |s| >= 9 && s[3] == ' ' && s[6..8] == ", "
      && MonthNumber(s[..3]) == Some(now.clock.month)
      && ParseNat(s[4..6]) == now.clock.day
      && ParseInt(s[8..]) == Some(now.clock.year)
  {
    var dt := now.clock;
    var mo := MonthNames[dt.month - 1];
    assert |mo| == 3;
    DateLabelFields(mo, Pad2(dt.day), NatToString(dt.year));
    MonthNumberOfName(dt.month);
    Pad2RoundTrip(dt.day);
    IntToStringRoundTrip(dt.year);
  }

  const SubjectPrefix := "🏆 Contest Update: "
  const SubjectMiddle := " events on "

  function Subject(total: nat, date: string): string {
    SubjectPrefix + NatToString(total) + SubjectMiddle + date
  }

  /** Reads `pre`, a decimal number, `mid` and a free tail back into the number and the tail. */
  function ReadFramed(s: string, pre: string, mid: string): Option<(nat, string)> {
    if |s| >= |pre| && s[..|pre|] == pre then
      var t := s[|pre|..];
      var k := DigitPrefix(t);
      var rest := t[k..];
      if k > 0 && |rest| >= |mid| && rest[..|mid|] == mid then
        Some((ParseNat(t[..k]), rest[|mid|..]))
      else None
    else None
  }

  lemma FramedRoundTrip(pre: string, n: nat, mid: string, tail: string)
    requires mid != [] && !IsDigit(mid[0])
    ensures ReadFramed(pre + NatToString(n) + mid + tail, pre, mid) == Some((n, tail))
  {
    var d := NatToString(n);
    var rest := mid + tail;
    var s := pre + d + mid + tail;
    assert s == pre + (d + rest);
    assert s[..|pre|] == pre && s[|pre|..] == d + rest;
    ReadNumberThen(d, rest);
    NatToStringRoundTrip(n);
    assert rest[..|mid|] == mid && rest[|mid|..] == tail;
  }

  /** Reads a subject back into its event count and date; None for text `Subject` never writes. */
  function ReadSubject(s: string): Option<(nat, string)> {
    ReadFramed(s, SubjectPrefix, SubjectMiddle)
  }

  /** The subject determines the event count and the date it was built from. */
  lemma SubjectRoundTrip(total: nat, date: string)
    ensures ReadSubject(Subject(total, date)) == Some((total, date))
  {
    assert SubjectMiddle[0] == ' ';
    FramedRoundTrip(SubjectPrefix, total, SubjectMiddle, date);
  }

  /**
   * `send_email_to_me`: with no contest it returns before anything else,
   * even without a recipient; otherwise a missing or empty MY_EMAIL is an
   * error and a present one receives exactly one digest.
   */
  method SendEmailToMe(mailer: Mailer, contestData: seq<(string, PlatformResult)>,
                       myEmail: Option<string>, now: Moment) returns (outcome: SendOutcome)
    requires ValidMoment(now)
    modifies mailer
    ensures TotalContests(contestData) == 0 ==> outcome == NothingToSend && mailer.sent == old(mailer.sent)
    ensures TotalContests(contestData) > 0 && (myEmail.None? || myEmail.value == "") ==>
      outcome == MissingRecipient && mailer.sent == old(mailer.sent)
    ensures TotalContests(contestData) > 0 && myEmail.Some? && myEmail.value != "" ==>
      outcome == Sent &&
      mailer.sent == old(mailer.sent) + [Mail(myEmail.value,
                                              Subject(TotalContests(contestData), DateLabel(now)),
                                              Digest(DateLabel(now), TotalContests(contestData),
                                                     CardsOf(contestData, NowMicros(now))))]
    ensures outcome == Sent ==>
      |mailer.sent| == |old(mailer.sent)| + 1 &&
      var mail := mailer.sent[|mailer.sent| - 1];
      |mail.body.cards| == mail.body.total > 0 && mail.subject == Subject(mail.body.total, mail.body.date)
  {
    var total := TotalContests(contestData);
    if total == 0 {
      return NothingToSend;
    }
    var cards := GenerateCards(contestData, NowMicros(now));
    CardCount(contestData, NowMicros(now));
    var currentDate := DateLabel(now);
    var subject := Subject(total, currentDate);
    var body := Digest(currentDate, total, cards);
    if myEmail.Some? && myEmail.value != "" {
      mailer.SendEmail(myEmail.value, subject, body);
      outcome := Sent;
    } else {
      outcome := MissingRecipient;
    }
  }
}
