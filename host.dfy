/**
 * The hosting platform as the bot sees it: the Redis keys it owns (two sorted
 * sets and the dedup keys), the Reddit state it writes (flairs, wiki pages),
 * the job scheduler's queue and the messages it sends, held by a `Context`
 * object whose fields the handlers update; plus the Reddit lookups it only
 * reads, as a value.
 */
module Host {
  import opened Wrappers
  import opened Codec

  /** One member of a Redis sorted set. */
  datatype ZMember = ZMember(member: string, score: int)

  datatype UserFlair = UserFlair(text: string, cssClass: Option<string>, templateId: Option<string>)
  datatype PostFlair = PostFlair(text: Option<string>, cssClass: Option<string>, templateId: Option<string>)

  /** `WikiPagePermissionLevel`. */
  datatype PermLevel = SubredditPermissions | ApprovedContributorsOnly | ModsOnly
  datatype WikiPage = WikiPage(content: string, permLevel: PermLevel)
  datatype BackupPage = BackupPage(blob: Blob, permLevel: PermLevel)

  /** Jobs handed to `scheduler.runJob`, by job name. */
  datatype Job =
    | UpdateLeaderboardJob(runAt: int, reason: string)
    | CleanupDeletedAccountsJob(runAt: int)
    | AdhocCleanupJob(runAt: int)

  /** A notification: a private message, or a public reply that is distinguished and locked. */
  datatype Notice =
    | PrivateMessage(to: string, subject: string, text: string)
    | PublicReply(parentId: string, text: string)

  /** Everything the handlers can change. */
  datatype World = World(
    points: map<string, int>,          // sorted set "thanksPointsStore": user -> score
    cleanupLog: map<string, int>,      // sorted set "cleanupStore": user -> next check (ms)
    markers: map<string, int>,         // keys "thanks-<parentId>-<actor>" -> expiry (ms)
    prevTimeBetweenChecks: Option<string>,
    installDate: Option<string>,
    userFlairs: map<string, UserFlair>,
    postFlairs: map<string, PostFlair>,
    wikiPages: map<string, WikiPage>,
    backupPage: Option<BackupPage>,
    jobs: seq<Job>,
    outbox: seq<Notice>)

  /** A comment found by `getCommentById`. */
  datatype RedditComment = RedditComment(id: string, authorName: string, permalink: string, subredditName: string)

  /**
   * What the handlers learn from Reddit and do not change: which user names
   * resolve to an account (`getUserByUsername` returns a user rather than
   * throwing or returning undefined), the moderators, the comments, whether
   * the platform answers at all, and three library functions (markdown
   * escaping, case-insensitive regular expression test, `toUTCString`).
   */
  datatype Reddit = Reddit(
    appName: string,
    subredditName: string,
    users: set<string>,
    moderators: set<string>,
    comments: map<string, RedditComment>,
    platformUp: bool,
    markdownEscape: string -> string,
    regexTest: (string, string) -> bool,
    utcString: string -> string)

  const AUTOMODERATOR: string := "AutoModerator"

  class Context {
    var points: map<string, int>
    var cleanupLog: map<string, int>
    var markers: map<string, int>
    var prevTimeBetweenChecks: Option<string>
    var installDate: Option<string>
    var userFlairs: map<string, UserFlair>
    var postFlairs: map<string, PostFlair>
    var wikiPages: map<string, WikiPage>
    var backupPage: Option<BackupPage>
    var jobs: seq<Job>
    var outbox: seq<Notice>

    function State(): World
      reads this
    {
      World(points, cleanupLog, markers, prevTimeBetweenChecks, installDate, userFlairs,
            postFlairs, wikiPages, backupPage, jobs, outbox)
    }

    /** `zRange(cleanupStore, 0, 0, { by: "rank" })`: an entry with the earliest next-check time. */
    method FirstByScore() returns (first: Option<ZMember>)
      ensures first.None? <==> cleanupLog == map[]
      ensures first.Some? ==> first.value.member in cleanupLog && cleanupLog[first.value.member] == first.value.score
      ensures first.Some? ==> forall k :: k in cleanupLog ==> first.value.score <= cleanupLog[k]
      ensures first.Some? ==> first.value.score == EarliestTime(cleanupLog).value
    {
      first := None;
      var todo := cleanupLog.Keys;
      while todo != {}
        invariant todo <= cleanupLog.Keys
        invariant first.None? <==> todo == cleanupLog.Keys
        invariant first.Some? ==> first.value.member in cleanupLog && cleanupLog[first.value.member] == first.value.score
        invariant first.Some? ==> forall k :: k in cleanupLog && k !in todo ==> first.value.score <= cleanupLog[k]
        decreases todo
      {
        var k :| k in todo;
        if first.None? || cleanupLog[k] < first.value.score {
          first := Some(ZMember(k, cleanupLog[k]));
        }
        todo := todo - {k};
      }
      if first.Some? {
        MinOfIsTheLeast(cleanupLog.Values, first.value.score);
      }
    }
  }

  // ---------------------------------------------------------------------
  // Sorted-set operations and queries

  function Members(rows: seq<ZMember>): set<string> {
    set i | 0 <= i < |rows| :: rows[i].member
  }

  lemma MembersCons(rows: seq<ZMember>)
    requires rows != []
    ensures Members(rows) == {rows[0].member} + Members(rows[1..])
  {
    forall k | k in Members(rows) ensures k in {rows[0].member} + Members(rows[1..]) {
      var i :| 0 <= i < |rows| && rows[i].member == k;
      if i > 0 { assert rows[1..][i - 1].member == k; }
    }
  }

  /** `zAdd(key, ...members)`: upsert each member in order, so the last entry for a member wins. */
  function ZAdd(m: map<string, int>, members: seq<ZMember>): (r: map<string, int>)
    ensures r.Keys == m.Keys + Members(members)
    ensures forall k :: k in m && k !in Members(members) ==> r[k] == m[k]
    decreases |members|
  {
    if members == [] then m
    else
      MembersCons(members);
      ZAdd(m[members[0].member := members[0].score], members[1..])
  }

  /** Each member written by `zAdd` holds the score of its last entry. */
  lemma {:induction false} ZAddLastWins(m: map<string, int>, members: seq<ZMember>, k: string)
    requires k in Members(members)
    ensures exists i :: 0 <= i < |members| && members[i].member == k && ZAdd(m, members)[k] == members[i].score
                        && forall j :: i < j < |members| ==> members[j].member != k
    decreases |members|
  {
    var rest := members[1..];
    var m' := m[members[0].member := members[0].score];
    MembersCons(members);
    if k in Members(rest) {
      ZAddLastWins(m', rest, k);
      var i :| 0 <= i < |rest| && rest[i].member == k && ZAdd(m', rest)[k] == rest[i].score
               && forall j :: i < j < |rest| ==> rest[j].member != k;
      assert members[i + 1] == rest[i];
      forall j | i + 1 < j < |members| ensures members[j].member != k {
        assert members[j] == rest[j - 1];
      }
    } else {
      forall j | 0 < j < |members| ensures members[j].member != k {
        assert members[j] == rest[j - 1];
      }
    }
  }

  /** `zRem(key, members)`. */
  function ZRem(m: map<string, int>, members: seq<string>): (r: map<string, int>)
    ensures r.Keys == m.Keys - set u | u in members
    ensures forall k :: k in r ==> r[k] == m[k]
  {
    map k | k in m && k !in members :: m[k]
  }

  /** Writing one score for every listed member. */
  lemma ZAddUniform(m: map<string, int>, members: seq<ZMember>, score: int)
    requires forall i :: 0 <= i < |members| ==> members[i].score == score
    ensures forall k :: k in Members(members) ==> ZAdd(m, members)[k] == score
  {
    forall k | k in Members(members) ensures ZAdd(m, members)[k] == score {
      ZAddLastWins(m, members, k);
    }
  }

  predicate Distinct(rows: seq<ZMember>) {
    forall i, j :: 0 <= i < j < |rows| ==> rows[i].member != rows[j].member
  }

  /** Distinct rows name as many members as there are rows. */
  lemma {:induction false} DistinctMembersCount(rows: seq<ZMember>)
    requires Distinct(rows)
    ensures |Members(rows)| == |rows|
  {
    if rows != [] {
      MembersCons(rows);
      DistinctMembersCount(rows[1..]);
      assert rows[0].member !in Members(rows[1..]) by {
        forall i | 0 <= i < |rows[1..]| ensures rows[1..][i].member != rows[0].member {
          assert rows[1..][i] == rows[i + 1];
        }
      }
    }
  }

  /** Every row is a member of `m` with its score. */
  predicate InStore(rows: seq<ZMember>, m: map<string, int>) {
    forall i :: 0 <= i < |rows| ==> rows[i].member in m && m[rows[i].member] == rows[i].score
  }

  /**
   * A correct answer to `zRange(key, lo, hi, { by: "score" })`: every member
   * whose score lies in [lo, hi], once each, in ascending score order.
   */
  ghost predicate IsScoreRange(rows: seq<ZMember>, m: map<string, int>, lo: int, hi: int) {
    && InStore(rows, m)
    && Distinct(rows)
    && (forall i :: 0 <= i < |rows| ==> lo <= rows[i].score <= hi)
    && (forall i, j :: 0 <= i < j < |rows| ==> rows[i].score <= rows[j].score)
    && (forall k :: k in m && lo <= m[k] <= hi ==> k in Members(rows))
  }

  /** A correct answer to `zRange(key, 0, -1)`: every member once. */
  ghost predicate IsListing(rows: seq<ZMember>, m: map<string, int>) {
    InStore(rows, m) && Distinct(rows) && Members(rows) == m.Keys
  }

  lemma MembersSnoc(rows: seq<ZMember>, row: ZMember)
    ensures Members(rows + [row]) == Members(rows) + {row.member}
  {
    var all := rows + [row];
    forall k | k in Members(all) ensures k in Members(rows) + {row.member} {
      var i :| 0 <= i < |all| && all[i].member == k;
      if i < |rows| { assert rows[i] == all[i]; }
    }
    forall k | k in Members(rows) ensures k in Members(all) {
      var i :| 0 <= i < |rows| && rows[i].member == k;
      assert all[i] == rows[i];
    }
    assert all[|rows|] == row;
  }

  /** `zRange(key, 0, -1)` on a store the caller has just written: every member once, with its score. */
  method ZRangeAll(m: map<string, int>) returns (rows: seq<ZMember>)
    ensures IsListing(rows, m)
  {
    rows := [];
    var todo := m.Keys;
    while todo != {}
      invariant todo <= m.Keys
      invariant InStore(rows, m) && Distinct(rows)
      invariant Members(rows) == m.Keys - todo
      decreases todo
    {
      var k :| k in todo;
      MembersSnoc(rows, ZMember(k, m[k]));
      rows := rows + [ZMember(k, m[k])];
      todo := todo - {k};
    }
  }

  /** Number of rows `zRange(key, 0, stop, { by: "rank" })` returns from a set of `n` members. */
  function RankCount(n: nat, stop: int): (r: nat)
    ensures r <= n
    ensures stop >= 0 ==> r == if stop + 1 < n then stop + 1 else n
    ensures stop < 0 ==> r == if n + stop + 1 > 0 then n + stop + 1 else 0
  {
    var last := if stop < 0 then n + stop else stop;
    var last' := if last > n - 1 then n - 1 else last;
    if last' < 0 then 0 else last' + 1
  }

  /**
   * A correct answer to `zRange(key, 0, count - 1, { by: "rank", reverse: true })`:
   * `count` distinct members in descending score order, none of the others
   * scoring above any of them.
   */
  ghost predicate IsTopRange(rows: seq<ZMember>, m: map<string, int>, count: nat) {
    && |rows| == count
    && InStore(rows, m)
    && Distinct(rows)
    && (forall i, j :: 0 <= i < j < |rows| ==> rows[i].score >= rows[j].score)
    && (forall k, i :: k in m && k !in Members(rows) && 0 <= i < |rows| ==> m[k] <= rows[i].score)
  }

  lemma NonEmptyHasElement(s: set<int>)
    requires s != {}
    ensures exists x :: x in s
  {
    if forall x :: x !in s {
      assert false;
    }
  }

  /** The smallest of a non-empty set of times. */
  ghost function MinOf(s: set<int>): (least: int)
    requires s != {}
    ensures least in s && forall x :: x in s ==> least <= x
    decreases s
  {
    NonEmptyHasElement(s);
    var x :| x in s;
    var others := s - {x};
    assert forall y :: y in s ==> y == x || y in others;
    if others == {} then x
    else
      var rest := MinOf(others);
      if x <= rest then x else rest
  }

  lemma MinOfIsTheLeast(s: set<int>, x: int)
    requires x in s && forall y :: y in s ==> x <= y
    ensures MinOf(s) == x
  {
  }

  /** The earliest next-check time in the queue, if any. */
  ghost function EarliestTime(log: map<string, int>): (r: Option<int>)
    ensures r.None? <==> log == map[]
    ensures r.Some? ==> r.value in log.Values && forall k :: k in log ==> r.value <= log[k]
  {
    if log == map[] then None
    else
      assert exists k :: k in log;
      var k :| k in log;
      assert forall k :: k in log ==> log[k] in log.Values;
      Some(MinOf(log.Values))
  }
}
