/**
 * The record mapping of `fetch_contest_data` (get_data.py): already-decoded
 * upstream records go in, the platform-keyed contest lists come out. The two
 * HTTP fetches and the JSON decoding are outside the model; their results are
 * the parameters `leetcode` and `codeforces`.
 */
module GetData {
  import opened Wrappers
  import opened Text

  /**
   * The `Contest` record as get_data.py declares it: the start time is the
   * upstream epoch-seconds integer and the duration is copied as sent.
   */
  datatype Contest = Contest(name: string, startTime: int, duration: int, link: string)

  /** The fields read from one record of the LeetCode upcoming-contests feed. */
  datatype LeetCodeRecord = LeetCodeRecord(title: string, startTime: int, duration: int)

  /** The fields read from one record of Codeforces' `contest.list`. */
  datatype CodeforcesRecord =
    CodeforcesRecord(id: int, name: string, phase: string, startTimeSeconds: int, durationSeconds: int)

  const LeetCodePrefix := "https://leetcode.com/contest/"
  const CodeforcesPrefix := "https://codeforces.com/contests/"

  // ---- LeetCode links ----

  /** `title.lower().replace(' ', '-')`. */
  function Slug(title: string): string {
    ReplaceChar(Lower(title), ' ', '-')
  }

  /** The slug keeps the title's length, has no spaces, and is the lower-cased title with '-' for each space. */
  lemma SlugShape(title: string)
    ensures |Slug(title)| == |title|
    ensures forall i :: 0 <= i < |title| ==> Slug(title)[i] != ' '
    ensures forall i :: 0 <= i < |title| ==>
      Slug(title)[i] == (if title[i] == ' ' then '-' else LowerChar(title[i]))
  {
    var l := Lower(title);
    forall i | 0 <= i < |title|
      ensures Slug(title)[i] == (if title[i] == ' ' then '-' else LowerChar(title[i]))
    {
      assert l[i] == LowerChar(title[i]);
      assert LowerChar(title[i]) == ' ' <==> title[i] == ' ';
    }
  }

  /** Slugging a slug changes nothing. */
  lemma SlugIdempotent(title: string)
    ensures Slug(Slug(title)) == Slug(title)
  {
    var s := Slug(title);
    SlugShape(title);
    SlugShape(s);
    forall i | 0 <= i < |s| ensures Slug(s)[i] == s[i] {
      assert 'A' <= s[i] <= 'Z' ==> false;
    }
  }

  /** `f"https://leetcode.com/contest/{slug}/"`. */
  function LeetCodeLink(title: string): (link: string)
    ensures |link| == |LeetCodePrefix| + |title| + 1
    ensures link[..|LeetCodePrefix|] == LeetCodePrefix && link[|link| - 1] == '/'
  {
    LeetCodePrefix + Slug(title) + "/"
  }

  /** The slug sits between the prefix and the closing '/': the link determines the slug. */
  lemma LeetCodeLinkSlug(title: string)
    ensures var link := LeetCodeLink(title);
      link[|LeetCodePrefix|..|link| - 1] == Slug(title)
  {
    var link := LeetCodeLink(title);
    assert link == LeetCodePrefix + (Slug(title) + "/");
    assert (Slug(title) + "/")[..|Slug(title)|] == Slug(title);
  }

  /** The link ignores letter case: titles that differ only in case share a link. */
  lemma LeetCodeLinkIgnoresCase(title: string)
    ensures LeetCodeLink(Lower(title)) == LeetCodeLink(title)
  {
    var l := Lower(title);
    SlugShape(title);
    SlugShape(l);
    forall i | 0 <= i < |title| ensures Slug(l)[i] == Slug(title)[i] {
      assert l[i] == LowerChar(title[i]);
    }
    assert Slug(l) == Slug(title);
  }

  // ---- Codeforces links ----

  /** `f"https://codeforces.com/contests/{id}"`. */
  function CodeforcesLink(id: int): (link: string)
    ensures |link| > |CodeforcesPrefix| && link[..|CodeforcesPrefix|] == CodeforcesPrefix
  {
    CodeforcesPrefix + IntToString(id)
  }

  /** Reading the number after the prefix gives the id back. */
  lemma CodeforcesLinkId(id: int)
    ensures ParseInt(CodeforcesLink(id)[|CodeforcesPrefix|..]) == Some(id)
  {
    assert CodeforcesLink(id)[|CodeforcesPrefix|..] == IntToString(id);
    IntToStringRoundTrip(id);
  }

  /** Different contests get different links. */
  lemma CodeforcesLinkInjective(a: int, b: int)
    ensures CodeforcesLink(a) == CodeforcesLink(b) <==> a == b
  {
    if CodeforcesLink(a) == CodeforcesLink(b) {
      CodeforcesLinkId(a);
      CodeforcesLinkId(b);
    }
  }

  // ---- records to contests ----

  function FromLeetCode(r: LeetCodeRecord): Contest {
    Contest(r.title, r.startTime, r.duration, LeetCodeLink(r.title))
  }

  function FromCodeforces(r: CodeforcesRecord): Contest {
    Contest(r.name, r.startTimeSeconds, r.durationSeconds, CodeforcesLink(r.id))
  }

  /** The "leetcode" list: one contest per record, in feed order, fields copied without conversion. */
  function LeetCodeContests(records: seq<LeetCodeRecord>): (cs: seq<Contest>)
    ensures |cs| == |records|
    ensures forall i :: 0 <= i < |records| ==>
      && cs[i].name == records[i].title
      && cs[i].startTime == records[i].startTime
      && cs[i].duration == records[i].duration
      && cs[i].link == LeetCodeLink(records[i].title)
  {
    seq(|records|, i requires 0 <= i < |records| => FromLeetCode(records[i]))
  }

  predicate IsUpcoming(r: CodeforcesRecord) {
    r.phase == "BEFORE"
  }

  /** Keeps the records whose phase is "BEFORE", in feed order. */
  function Upcoming(records: seq<CodeforcesRecord>): (up: seq<CodeforcesRecord>)
    ensures |up| <= |records|
    decreases |records|
  {
    if records == [] then []
    else
      var init, last := records[..|records| - 1], records[|records| - 1];
      Upcoming(init) + (if IsUpcoming(last) then [last] else [])
  }

  /** The filter keeps exactly the records whose phase is "BEFORE". */
  lemma {:induction false} UpcomingMembers(records: seq<CodeforcesRecord>)
    ensures forall r :: r in Upcoming(records) <==> r in records && IsUpcoming(r)
    decreases |records|
  {
    if records != [] {
      var init, last := records[..|records| - 1], records[|records| - 1];
      UpcomingMembers(init);
      assert records == init + [last];
    }
  }

  /** The filter works record by record, so it keeps the feed's order. */
  lemma {:induction false} UpcomingAppend(a: seq<CodeforcesRecord>, b: seq<CodeforcesRecord>)
    ensures Upcoming(a + b) == Upcoming(a) + Upcoming(b)
    decreases |b|
  {
    if b == [] {
      assert a + b == a;
    } else {
      var init, last := b[..|b| - 1], b[|b| - 1];
      var ab := a + b;
      assert ab[..|ab| - 1] == a + init && ab[|ab| - 1] == last;
      UpcomingAppend(a, init);
      assert Upcoming(ab) == Upcoming(a + init) + (if IsUpcoming(last) then [last] else []);
    }
  }

  /** Filtering twice is filtering once. */
  lemma {:induction false} UpcomingIdempotent(records: seq<CodeforcesRecord>)
    ensures Upcoming(Upcoming(records)) == Upcoming(records)
    decreases |records|
  {
    if records != [] {
      var init, last := records[..|records| - 1], records[|records| - 1];
      var u := Upcoming(init);
      UpcomingIdempotent(init);
      if IsUpcoming(last) {
        assert Upcoming(records) == u + [last];
        UpcomingAppend(u, [last]);
        assert Upcoming([last]) == [last] by {
          assert [last][..0] == [];
        }
      } else {
        assert Upcoming(records) == u;
      }
    }
  }

  /** The "codeforces" list: one contest per upcoming record, in feed order, fields copied without conversion. */
  function CodeforcesContests(records: seq<CodeforcesRecord>): (cs: seq<Contest>)
    ensures |cs| == |Upcoming(records)|
    ensures forall i :: 0 <= i < |cs| ==>
      && cs[i].name == Upcoming(records)[i].name
      && cs[i].startTime == Upcoming(records)[i].startTimeSeconds
      && cs[i].duration == Upcoming(records)[i].durationSeconds
      && cs[i].link == CodeforcesLink(Upcoming(records)[i].id)
  {
    var up := Upcoming(records);
    seq(|up|, i requires 0 <= i < |up| => FromCodeforces(up[i]))
  }

  /** Every upcoming record is listed ... */
  lemma UpcomingListed(records: seq<CodeforcesRecord>, r: CodeforcesRecord)
    requires r in records && IsUpcoming(r)
    ensures FromCodeforces(r) in CodeforcesContests(records)
  {
    var up := Upcoming(records);
    UpcomingMembers(records);
    var i :| 0 <= i < |up| && up[i] == r;
    assert CodeforcesContests(records)[i] == FromCodeforces(r);
  }

  /** ... and every listed contest comes from an upcoming record. */
  lemma ListedUpcoming(records: seq<CodeforcesRecord>, c: Contest)
    requires c in CodeforcesContests(records)
    ensures exists r :: r in records && IsUpcoming(r) && c == FromCodeforces(r)
  {
    var up, cs := Upcoming(records), CodeforcesContests(records);
    var i :| 0 <= i < |cs| && cs[i] == c;
    UpcomingMembers(records);
    assert up[i] in up;
  }

  // ---- the result ----

  /** `fetch_contest_data` from already-decoded feeds. */
  function FetchContestData(leetcode: seq<LeetCodeRecord>, codeforces: seq<CodeforcesRecord>)
    : (data: map<string, seq<Contest>>)
    ensures data.Keys == {"leetcode", "codeforces", "codechef"}
    ensures data["codechef"] == []
    ensures |data["leetcode"]| == |leetcode|
    ensures forall i :: 0 <= i < |leetcode| ==> data["leetcode"][i] == FromLeetCode(leetcode[i])
    ensures |data["codeforces"]| == |Upcoming(codeforces)| <= |codeforces|
    ensures forall i :: 0 <= i < |data["codeforces"]| ==>
      data["codeforces"][i] == FromCodeforces(Upcoming(codeforces)[i])
    ensures forall c :: c in data["codeforces"] <==> exists r :: r in codeforces && IsUpcoming(r) && c == FromCodeforces(r)
  {
    var cf := CodeforcesContests(codeforces);
    CodeforcesFromUpcoming(codeforces);
    map["leetcode" := LeetCodeContests(leetcode), "codeforces" := cf, "codechef" := []]
  }

  lemma CodeforcesFromUpcoming(codeforces: seq<CodeforcesRecord>)
    ensures forall c :: c in CodeforcesContests(codeforces) <==>
      exists r :: r in codeforces && IsUpcoming(r) && c == FromCodeforces(r)
  {
    forall r | r in codeforces && IsUpcoming(r) {
      UpcomingListed(codeforces, r);
    }
    forall c | c in CodeforcesContests(codeforces) {
      ListedUpcoming(codeforces, c);
    }
  }
}
