/**
 * The account maintenance queue: every scored user has an entry in the
 * "cleanupStore" sorted set holding the time of their next check; a sweep
 * checks at most 50 due users, reschedules those whose account still
 * resolves and deletes the others from both stores.
 */
module CleanupTasks {
  import opened Wrappers
  import opened JsString
  import opened Host

  const DAY_MS: int := 86_400_000
  const MINUTE_MS: int := 60_000
  const DAYS_BETWEEN_CHECKS: nat := 28
  /** `addDays(now, DAYS_BETWEEN_CHECKS)` as an offset (the platform clock is UTC, so a day is 24 hours). */
  const CHECK_INTERVAL_MS: int := DAYS_BETWEEN_CHECKS * DAY_MS
  const ITEMS_TO_CHECK: nat := 50
  const ADHOC_MARGIN_MS: int := 5 * MINUTE_MS
  const DELETED_ACCOUNTS_REASON: string := "One or more deleted accounts removed from database"

  function Min(a: int, b: int): int {
    if a < b then a else b
  }

  // ---------------------------------------------------------------------
  // setCleanupForUsers

  /** The queue after every listed user's next check is set to `now` + 28 days. */
  function ScheduledChecks(log: map<string, int>, usernames: seq<string>, now: int): (r: map<string, int>)
    ensures r.Keys == log.Keys + set u | u in usernames
    ensures forall u :: u in usernames ==> r[u] == now + CHECK_INTERVAL_MS
    ensures forall k :: k in log && k !in usernames ==> r[k] == log[k]
  {
    map k | k in log.Keys + (set u | u in usernames) :: if k in usernames then now + CHECK_INTERVAL_MS else log[k]
  }

  lemma ScheduledChecksOfNobody(log: map<string, int>, now: int)
    ensures ScheduledChecks(log, [], now) == log
  {
  }

  /** The sorted-set entries `zAdd` receives: each user with the same time. */
  function Entries(usernames: seq<string>, time: int): (r: seq<ZMember>)
    ensures |r| == |usernames|
    ensures forall i :: 0 <= i < |r| ==> r[i] == ZMember(usernames[i], time)
    ensures Members(r) == set u | u in usernames
  {
    var r := seq(|usernames|, i requires 0 <= i < |usernames| => ZMember(usernames[i], time));
    assert forall u :: u in usernames ==> u in Members(r) by {
      forall u | u in usernames ensures u in Members(r) {
        var i :| 0 <= i < |usernames| && usernames[i] == u;
        assert r[i].member == u;
      }
    }
    r
  }

  /** Writing the same time for a list of users through `zAdd` gives `ScheduledChecks`. */
  lemma ZAddEntries(log: map<string, int>, usernames: seq<string>, time: int, now: int)
    requires time == now + CHECK_INTERVAL_MS
    ensures ZAdd(log, Entries(usernames, time)) == ScheduledChecks(log, usernames, now)
  {
    var e := Entries(usernames, time);
    ZAddUniform(log, e, time);
  }

  /** `setCleanupForUsers`: every listed user is due for a check 28 days from now. */
  method SetCleanupForUsers(ctx: Context, usernames: seq<string>, now: int)
    modifies ctx
    ensures ctx.State() == old(ctx.State()).(cleanupLog := ScheduledChecks(old(ctx.cleanupLog), usernames, now))
  {
    if |usernames| == 0 {
      return;
    }
    ZAddEntries(ctx.cleanupLog, usernames, now + CHECK_INTERVAL_MS, now);
    ctx.cleanupLog := ZAdd(ctx.cleanupLog, Entries(usernames, now + CHECK_INTERVAL_MS));
  }

  // ---------------------------------------------------------------------
  // scheduleAdhocCleanup

  /**
   * The jobs `scheduleAdhocCleanup` queues: none for an empty queue, else an
   * ad-hoc run five minutes after the earliest next check, only when that is
   * more than five minutes before the next scheduled cron run.
   */
  ghost function RearmJobs(log: map<string, int>, nextCron: int): (r: seq<Job>)
    ensures |r| <= 1
    ensures r != [] <==> log != map[] && EarliestTime(log).value + ADHOC_MARGIN_MS < nextCron - ADHOC_MARGIN_MS
    ensures r != [] ==> r[0] == AdhocCleanupJob(EarliestTime(log).value + ADHOC_MARGIN_MS)
  {
    match EarliestTime(log)
    case None => []
    case Some(earliest) =>
      var runAt := earliest + ADHOC_MARGIN_MS;
      if runAt < nextCron - ADHOC_MARGIN_MS then [AdhocCleanupJob(runAt)] else []
  }

  /** The ad-hoc run is never later than every queued check plus five minutes, and always before the cron run. */
  lemma RearmJobTiming(log: map<string, int>, nextCron: int)
    requires RearmJobs(log, nextCron) != []
    ensures forall k :: k in log ==> RearmJobs(log, nextCron)[0].runAt <= log[k] + ADHOC_MARGIN_MS
    ensures RearmJobs(log, nextCron)[0].runAt < nextCron
    ensures exists k :: k in log && RearmJobs(log, nextCron)[0].runAt == log[k] + ADHOC_MARGIN_MS
  {
    var t := EarliestTime(log).value;
    var k :| k in log && log[k] == t;
  }

  /** `scheduleAdhocCleanup`: the next cron time (from the cron expression) is a parameter. */
  method ScheduleAdhocCleanup(ctx: Context, nextCron: int)
    modifies ctx
    ensures ctx.State() == old(ctx.State()).(jobs := old(ctx.jobs) + RearmJobs(old(ctx.cleanupLog), nextCron))
  {
    var next := ctx.FirstByScore();
    if next.None? {
      return;
    }
    var nextCleanupJobTime := next.value.score + ADHOC_MARGIN_MS;
    if nextCleanupJobTime < nextCron - ADHOC_MARGIN_MS {
      ctx.jobs := ctx.jobs + [AdhocCleanupJob(nextCleanupJobTime)];
    }
  }

  // ---------------------------------------------------------------------
  // cleanupDeletedAccounts

  /** `userActive`: a failed or empty lookup counts as a deleted or suspended account. */
  predicate UserActive(reddit: Reddit, username: string) {
    username in reddit.users
  }

  datatype UserStatus = UserStatus(username: string, isActive: bool)

  function ActiveUsers(statuses: seq<UserStatus>): (r: seq<string>)
    ensures forall u :: u in r <==> UserStatus(u, true) in statuses
  {
    if statuses == [] then []
    else (if statuses[0].isActive then [statuses[0].username] else []) + ActiveUsers(statuses[1..])
  }

  function DeletedUsers(statuses: seq<UserStatus>): (r: seq<string>)
    ensures forall u :: u in r <==> UserStatus(u, false) in statuses
  {
    if statuses == [] then []
    else (if statuses[0].isActive then [] else [statuses[0].username]) + DeletedUsers(statuses[1..])
  }

  /** The users a sweep checks: the first 50 due entries, earliest first. */
  function UsersToCheck(items: seq<ZMember>): (r: seq<string>)
    ensures |r| == Min(ITEMS_TO_CHECK, |items|)
    ensures forall i :: 0 <= i < |r| ==> r[i] == items[i].member
  {
    var n := Min(ITEMS_TO_CHECK, |items|);
    seq(n, i requires 0 <= i < n => items[i].member)
  }

  /** Entries whose check is due at `now`. */
  function DueUsers(log: map<string, int>, now: int): set<string> {
    set k | k in log && 0 <= log[k] <= now
  }

  function CheckedUsers(items: seq<ZMember>): set<string> {
    set u | u in UsersToCheck(items)
  }

  function DeletedAccounts(items: seq<ZMember>, reddit: Reddit): set<string> {
    set u | u in UsersToCheck(items) && !UserActive(reddit, u)
  }

  /** The ledger without the deleted accounts. */
  function SweptLedger(points: map<string, int>, deleted: set<string>): map<string, int> {
    map k | k in points && k !in deleted :: points[k]
  }

  /** The queue with the checked accounts rescheduled and the deleted ones gone. */
  function SweptQueue(log: map<string, int>, checked: set<string>, deleted: set<string>, now: int): map<string, int> {
    map k | k in log && k !in deleted :: if k in checked then now + CHECK_INTERVAL_MS else log[k]
  }

  /**
   * What one run of `cleanupDeletedAccounts` does, given the store's answer
   * `items` to the due-entries query: with nothing due it only rearms; with
   * the platform down it stops; otherwise the checked users that resolve are
   * rescheduled, the others leave both stores, and then either an immediate
   * rerun (more than 50 were due) or a rearm is queued.
   */
  ghost function SweepSpec(w: World, items: seq<ZMember>, reddit: Reddit, now: int, nextCron: int): World {
    if items == [] then w.(jobs := w.jobs + RearmJobs(w.cleanupLog, nextCron))
    else if !reddit.platformUp then w
    else
      var deleted := DeletedAccounts(items, reddit);
      var log := SweptQueue(w.cleanupLog, CheckedUsers(items), deleted, now);
      var removalJobs := if deleted == {} then [] else [UpdateLeaderboardJob(now, DELETED_ACCOUNTS_REASON)];
      var followUp := if |items| > ITEMS_TO_CHECK then [CleanupDeletedAccountsJob(now)] else RearmJobs(log, nextCron);
      w.(points := SweptLedger(w.points, deleted), cleanupLog := log, jobs := w.jobs + removalJobs + followUp)
  }

  /** `cleanupDeletedAccounts`; `items` is the store's answer to the due-entries query. */
  method CleanupDeletedAccounts(ctx: Context, items: seq<ZMember>, reddit: Reddit, now: int, nextCron: int)
    requires IsScoreRange(items, ctx.cleanupLog, 0, now)
    modifies ctx
    ensures ctx.State() == SweepSpec(old(ctx.State()), items, reddit, now, nextCron)
  {
    if |items| == 0 {
      ScheduleAdhocCleanup(ctx, nextCron);
      return;
    }
    if !reddit.platformUp {
      // `getAppUser` throws and the job ends here.
      return;
    }
    ghost var w := ctx.State();
    var usersToCheck := UsersToCheck(items);
    var userStatuses := CheckUsers(usersToCheck, reddit);
    var activeUsers := ActiveUsers(userStatuses);
    var deletedUsers := DeletedUsers(userStatuses);
    ApplyStatuses(ctx, activeUsers, deletedUsers, now);
    SweptLedgerByRemoval(w.points, deletedUsers, DeletedAccounts(items, reddit));
    SweptQueueByWrites(w.cleanupLog, items, reddit, now, activeUsers, deletedUsers);
    if |items| > ITEMS_TO_CHECK {
      ctx.jobs := ctx.jobs + [CleanupDeletedAccountsJob(now)];
    } else {
      ScheduleAdhocCleanup(ctx, nextCron);
    }
  }

  /** The loop of `cleanupDeletedAccounts` that looks each user up in turn. */
  method CheckUsers(usersToCheck: seq<string>, reddit: Reddit) returns (userStatuses: seq<UserStatus>)
    ensures forall u :: u in ActiveUsers(userStatuses) <==> u in usersToCheck && UserActive(reddit, u)
    ensures forall u :: u in DeletedUsers(userStatuses) <==> u in usersToCheck && !UserActive(reddit, u)
  {
    userStatuses := [];
    for i := 0 to |usersToCheck|
      invariant |userStatuses| == i
      invariant forall j :: 0 <= j < i ==> userStatuses[j] == UserStatus(usersToCheck[j], UserActive(reddit, usersToCheck[j]))
    {
      var isActive := UserActive(reddit, usersToCheck[i]);
      userStatuses := userStatuses + [UserStatus(usersToCheck[i], isActive)];
    }
    StatusesOfChecked(userStatuses, usersToCheck, reddit);
  }

  /** Reschedules the active users and removes the deleted ones from both stores. */
  method ApplyStatuses(ctx: Context, activeUsers: seq<string>, deletedUsers: seq<string>, now: int)
    modifies ctx
    ensures ctx.State() == old(ctx.State()).(
      points := if |deletedUsers| > 0 then ZRem(old(ctx.points), deletedUsers) else old(ctx.points),
      cleanupLog := (var l := if |activeUsers| > 0 then ScheduledChecks(old(ctx.cleanupLog), activeUsers, now) else old(ctx.cleanupLog);
                     if |deletedUsers| > 0 then ZRem(l, deletedUsers) else l),
      jobs := old(ctx.jobs) + if |deletedUsers| > 0 then [UpdateLeaderboardJob(now, DELETED_ACCOUNTS_REASON)] else [])
  {
    if |activeUsers| > 0 {
      ghost var before := ctx.cleanupLog;
      SetCleanupForUsers(ctx, activeUsers, now);
      ZAddEntries(ctx.cleanupLog, activeUsers, now + CHECK_INTERVAL_MS, now);
      ctx.cleanupLog := ZAdd(ctx.cleanupLog, Entries(activeUsers, now + CHECK_INTERVAL_MS));
      RescheduleTwice(before, activeUsers, now);
    }
    if |deletedUsers| > 0 {
      ctx.points := ZRem(ctx.points, deletedUsers);
      ctx.cleanupLog := ZRem(ctx.cleanupLog, deletedUsers);
      ctx.jobs := ctx.jobs + [UpdateLeaderboardJob(now, DELETED_ACCOUNTS_REASON)];
    }
  }

  lemma StatusesOfChecked(statuses: seq<UserStatus>, users: seq<string>, reddit: Reddit)
    requires |statuses| == |users|
    requires forall j :: 0 <= j < |users| ==> statuses[j] == UserStatus(users[j], UserActive(reddit, users[j]))
    ensures forall u :: u in ActiveUsers(statuses) <==> u in users && UserActive(reddit, u)
    ensures forall u :: u in DeletedUsers(statuses) <==> u in users && !UserActive(reddit, u)
  {
    forall u | u in users
      ensures UserStatus(u, UserActive(reddit, u)) in statuses
    {
      var j :| 0 <= j < |users| && users[j] == u;
      assert statuses[j] == UserStatus(u, UserActive(reddit, u));
    }
  }

  lemma RescheduleTwice(log: map<string, int>, usernames: seq<string>, now: int)
    ensures ScheduledChecks(ScheduledChecks(log, usernames, now), usernames, now) == ScheduledChecks(log, usernames, now)
  {
  }

  lemma SweptLedgerByRemoval(points: map<string, int>, deletedUsers: seq<string>, deleted: set<string>)
    requires forall u :: u in deletedUsers <==> u in deleted
    ensures (if |deletedUsers| > 0 then ZRem(points, deletedUsers) else points) == SweptLedger(points, deleted)
    ensures |deletedUsers| > 0 <==> deleted != {}
  {
    if |deletedUsers| > 0 {
      assert deletedUsers[0] in deleted;
    }
  }

  lemma SweptQueueByWrites(log: map<string, int>, items: seq<ZMember>, reddit: Reddit, now: int,
                           activeUsers: seq<string>, deletedUsers: seq<string>)
    requires IsScoreRange(items, log, 0, now)
    requires forall u :: u in activeUsers <==> u in UsersToCheck(items) && UserActive(reddit, u)
    requires forall u :: u in deletedUsers <==> u in UsersToCheck(items) && !UserActive(reddit, u)
    ensures |deletedUsers| > 0 <==> DeletedAccounts(items, reddit) != {}
    ensures (var l := if |activeUsers| > 0 then ScheduledChecks(log, activeUsers, now) else log;
             if |deletedUsers| > 0 then ZRem(l, deletedUsers) else l)
            == SweptQueue(log, CheckedUsers(items), DeletedAccounts(items, reddit), now)
  {
    var checked := CheckedUsers(items);
    var deleted := DeletedAccounts(items, reddit);
    if |deletedUsers| > 0 {
      assert deletedUsers[0] in deleted;
    }
    forall u | u in UsersToCheck(items) ensures u in log {
      var i :| 0 <= i < |UsersToCheck(items)| && UsersToCheck(items)[i] == u;
      assert items[i].member == u;
    }
    var l := if |activeUsers| > 0 then ScheduledChecks(log, activeUsers, now) else log;
    var r := if |deletedUsers| > 0 then ZRem(l, deletedUsers) else l;
    var target := SweptQueue(log, checked, deleted, now);
    assert l.Keys == log.Keys;
    assert r.Keys == target.Keys;
    forall k | k in r ensures r[k] == target[k] {
      assert r[k] == l[k];
      if k in checked {
        assert k in activeUsers;
      }
    }
    assert r == target;
  }

  // ---------------------------------------------------------------------
  // Properties of a sweep

  function DueCount(log: map<string, int>, now: int): nat {
    |DueUsers(log, now)|
  }

  /** The due-entries answer lists exactly the due users, so there are as many rows as due users. */
  lemma DueRows(items: seq<ZMember>, log: map<string, int>, now: int)
    requires IsScoreRange(items, log, 0, now)
    ensures Members(items) == DueUsers(log, now)
    ensures |items| == DueCount(log, now)
  {
    forall u | u in Members(items) ensures u in DueUsers(log, now) {
      var i :| 0 <= i < |items| && items[i].member == u;
    }
    DistinctMembersCount(items);
  }

  /** The checked users are distinct, as many as `UsersToCheck` lists, and all due. */
  lemma CheckedCount(items: seq<ZMember>, log: map<string, int>, now: int)
    requires IsScoreRange(items, log, 0, now)
    ensures |CheckedUsers(items)| == Min(ITEMS_TO_CHECK, |items|)
    ensures CheckedUsers(items) <= DueUsers(log, now)
  {
    var n := Min(ITEMS_TO_CHECK, |items|);
    var prefix := items[..n];
    assert CheckedUsers(items) == Members(prefix) by {
      forall u | u in Members(prefix) ensures u in CheckedUsers(items) {
        var i :| 0 <= i < |prefix| && prefix[i].member == u;
        assert UsersToCheck(items)[i] == u;
      }
    }
    assert Distinct(prefix) by {
      forall i, j | 0 <= i < j < |prefix| ensures prefix[i].member != prefix[j].member {
        assert prefix[i] == items[i] && prefix[j] == items[j];
      }
    }
    DistinctMembersCount(prefix);
    forall u | u in CheckedUsers(items) ensures u in DueUsers(log, now) {
      var i :| 0 <= i < |UsersToCheck(items)| && UsersToCheck(items)[i] == u;
      assert items[i].member == u;
    }
  }

  /**
   * The termination measure of the sweep: with the platform up, each run
   * lowers the number of due entries by exactly min(50, due).
   */
  lemma SweepLowersDueCount(w: World, items: seq<ZMember>, reddit: Reddit, now: int, nextCron: int)
    requires IsScoreRange(items, w.cleanupLog, 0, now)
    requires reddit.platformUp
    ensures DueCount(SweepSpec(w, items, reddit, now, nextCron).cleanupLog, now)
            == DueCount(w.cleanupLog, now) - Min(ITEMS_TO_CHECK, DueCount(w.cleanupLog, now))
  {
    DueRows(items, w.cleanupLog, now);
    if items != [] {
      CheckedCount(items, w.cleanupLog, now);
      var checked := CheckedUsers(items);
      var log' := SweepSpec(w, items, reddit, now, nextCron).cleanupLog;
      assert DueUsers(log', now) == DueUsers(w.cleanupLog, now) - checked;
    }
  }

  /** An immediate rerun is queued exactly when more than 50 entries were due. */
  lemma SweepRerunsOnBacklog(w: World, items: seq<ZMember>, reddit: Reddit, now: int, nextCron: int)
    requires IsScoreRange(items, w.cleanupLog, 0, now)
    requires reddit.platformUp
    ensures var added := SweepSpec(w, items, reddit, now, nextCron).jobs[|w.jobs|..];
            CleanupDeletedAccountsJob(now) in added <==> DueCount(w.cleanupLog, now) > ITEMS_TO_CHECK
  {
    DueRows(items, w.cleanupLog, now);
    SweepJobsRerun(w, items, reddit, now, nextCron);
  }

  lemma SweepJobsRerun(w: World, items: seq<ZMember>, reddit: Reddit, now: int, nextCron: int)
    requires reddit.platformUp
    ensures var added := SweepSpec(w, items, reddit, now, nextCron).jobs[|w.jobs|..];
            CleanupDeletedAccountsJob(now) in added <==> |items| > ITEMS_TO_CHECK
  {
    var s := SweepSpec(w, items, reddit, now, nextCron);
    if items == [] {
      assert s.jobs[|w.jobs|..] == RearmJobs(w.cleanupLog, nextCron);
    } else {
      var deleted := DeletedAccounts(items, reddit);
      var log := SweptQueue(w.cleanupLog, CheckedUsers(items), deleted, now);
      var removalJobs := if deleted == {} then [] else [UpdateLeaderboardJob(now, DELETED_ACCOUNTS_REASON)];
      var followUp := if |items| > ITEMS_TO_CHECK then [CleanupDeletedAccountsJob(now)] else RearmJobs(log, nextCron);
      assert s.jobs == w.jobs + removalJobs + followUp;
      assert s.jobs[|w.jobs|..] == removalJobs + followUp;
    }
  }

  /** With nothing due, or with the platform down, a sweep leaves both stores as they were. */
  lemma SweepWithoutWorkKeepsStores(w: World, items: seq<ZMember>, reddit: Reddit, now: int, nextCron: int)
    requires IsScoreRange(items, w.cleanupLog, 0, now)
    requires DueCount(w.cleanupLog, now) == 0 || !reddit.platformUp
    ensures SweepSpec(w, items, reddit, now, nextCron).points == w.points
    ensures SweepSpec(w, items, reddit, now, nextCron).cleanupLog == w.cleanupLog
  {
    DueRows(items, w.cleanupLog, now);
  }

  /**
   * Entries that were not checked keep their time, checked accounts that
   * resolve are due 28 days from now, and the others leave both stores.
   */
  lemma SweepOutcomePerUser(w: World, items: seq<ZMember>, reddit: Reddit, now: int, nextCron: int, u: string)
    requires IsScoreRange(items, w.cleanupLog, 0, now)
    requires items != [] && reddit.platformUp
    ensures var s := SweepSpec(w, items, reddit, now, nextCron);
            && (u in w.cleanupLog && u !in UsersToCheck(items) ==> u in s.cleanupLog && s.cleanupLog[u] == w.cleanupLog[u])
            && (u in UsersToCheck(items) && UserActive(reddit, u) ==> u in s.cleanupLog && s.cleanupLog[u] == now + CHECK_INTERVAL_MS)
            && (u in UsersToCheck(items) && !UserActive(reddit, u) ==> u !in s.cleanupLog && u !in s.points)
            && (u in w.points && !(u in UsersToCheck(items) && !UserActive(reddit, u)) ==> u in s.points && s.points[u] == w.points[u])
  {
    if u in UsersToCheck(items) {
      CheckedCount(items, w.cleanupLog, now);
      assert u in CheckedUsers(items);
    }
  }

  // ---------------------------------------------------------------------
  // populateCleanupLogAndScheduleCleanup

  /** `JSON.stringify(DAYS_BETWEEN_CHECKS)`, the value kept under "prevTimeBetweenChecks". */
  const CHECK_INTERVAL_MARKER: string := "28"

  lemma CheckIntervalMarkerIsTheInterval()
    ensures CHECK_INTERVAL_MARKER == NatToString(DAYS_BETWEEN_CHECKS)
    ensures DecimalValue(CHECK_INTERVAL_MARKER) == DAYS_BETWEEN_CHECKS
  {
    assert NatToString(2) == "2";
    assert NatToString(28) == NatToString(2) + ['8'];
  }

  /** A `Math.random` draw scaled to the check window: a whole number of milliseconds in [0, 28 days). */
  ghost predicate IsJitter(jitter: string -> int) {
    forall u :: 0 <= jitter(u) < CHECK_INTERVAL_MS
  }

  function Names(rows: seq<ZMember>): (r: seq<string>)
    ensures |r| == |rows|
    ensures forall i :: 0 <= i < |r| ==> r[i] == rows[i].member
  {
    seq(|rows|, i requires 0 <= i < |rows| => rows[i].member)
  }

  lemma NamesOfListing(rows: seq<ZMember>, m: map<string, int>)
    requires IsListing(rows, m)
    ensures forall u :: u in Names(rows) <==> u in m
  {
    forall u | u in m ensures u in Names(rows) {
      var i :| 0 <= i < |rows| && rows[i].member == u;
      assert Names(rows)[i] == u;
    }
  }

  /** `xs.filter(x => !ys.includes(x))`. */
  function Without(xs: seq<string>, ys: seq<string>): (r: seq<string>)
    ensures forall u :: u in r <==> u in xs && u !in ys
  {
    if xs == [] then []
    else (if xs[0] in ys then [] else [xs[0]]) + Without(xs[1..], ys)
  }

  /** Each user at `now` plus their own random offset. */
  function JitteredEntries(usernames: seq<string>, now: int, jitter: string -> int): (r: seq<ZMember>)
    ensures |r| == |usernames|
    ensures forall i :: 0 <= i < |r| ==> r[i] == ZMember(usernames[i], now + jitter(usernames[i]))
  {
    seq(|usernames|, i requires 0 <= i < |usernames| => ZMember(usernames[i], now + jitter(usernames[i])))
  }

  /** The queue after adding or moving the listed users to a random time in the window. */
  function Jittered(log: map<string, int>, usernames: set<string>, now: int, jitter: string -> int): (r: map<string, int>)
    ensures r.Keys == log.Keys + usernames
  {
    map k | k in log.Keys + usernames :: if k in usernames then now + jitter(k) else log[k]
  }

  lemma ZAddJittered(log: map<string, int>, usernames: seq<string>, now: int, jitter: string -> int)
    ensures ZAdd(log, JitteredEntries(usernames, now, jitter)) == Jittered(log, (set u | u in usernames), now, jitter)
  {
    var e := JitteredEntries(usernames, now, jitter);
    var listed := set u | u in usernames;
    assert Members(e) == listed by {
      forall u | u in usernames ensures u in Members(e) {
        var i :| 0 <= i < |usernames| && usernames[i] == u;
        assert e[i].member == u;
      }
    }
    var written := ZAdd(log, e);
    var expected := Jittered(log, listed, now, jitter);
    assert written.Keys == expected.Keys;
    forall k | k in written ensures written[k] == expected[k] {
      if k in listed {
        ZAddLastWins(log, e, k);
      }
    }
    assert written == expected;
  }

  /** The queue with entries only for scored users, scored users without one added at a random time. */
  function ReconciledQueue(points: map<string, int>, log: map<string, int>, now: int, jitter: string -> int): (r: map<string, int>)
    ensures r.Keys == points.Keys
  {
    map k | k in points :: if k in log then log[k] else now + jitter(k)
  }

  /** Scheduled jobs with the pending ad-hoc cleanup runs cancelled. */
  function WithoutAdhocJobs(jobs: seq<Job>): (r: seq<Job>)
    ensures forall j :: j in r <==> j in jobs && !j.AdhocCleanupJob?
  {
    if jobs == [] then []
    else (if jobs[0].AdhocCleanupJob? then [] else [jobs[0]]) + WithoutAdhocJobs(jobs[1..])
  }

  /**
   * The consistency pass, given the users its reschedule step moves:
   * reconcile the queue with the ledger; then, unless the stored interval
   * already reads "28", store it, move the given users to a random time in
   * the window, cancel the ad-hoc runs and rearm.
   */
  ghost function PopulatePass(w: World, moving: set<string>, jitterNew: string -> int, jitterAgain: string -> int,
                              now: int, nextCron: int): World {
    var log := ReconciledQueue(w.points, w.cleanupLog, now, jitterNew);
    if w.prevTimeBetweenChecks == Some(CHECK_INTERVAL_MARKER) then w.(cleanupLog := log)
    else
      var moved := Jittered(log, moving, now, jitterAgain);
      w.(cleanupLog := moved,
         prevTimeBetweenChecks := Some(CHECK_INTERVAL_MARKER),
         jobs := WithoutAdhocJobs(w.jobs) + RearmJobs(moved, nextCron))
  }

  /**
   * `populateCleanupLogAndScheduleCleanup` as written: the reschedule moves
   * every user of the queue listing read at the start of the pass, including
   * the ones the pass has just removed for having no score, and so puts them
   * back.
   */
  ghost function PopulateSpec(w: World, jitterNew: string -> int, jitterAgain: string -> int, now: int, nextCron: int): World {
    PopulatePass(w, w.cleanupLog.Keys, jitterNew, jitterAgain, now, nextCron)
  }

  /** The pass as its doc comment describes it: the reschedule moves only the users still queued. */
  ghost function PopulateSpecIntended(w: World, jitterNew: string -> int, jitterAgain: string -> int, now: int, nextCron: int): World {
    PopulatePass(w, w.cleanupLog.Keys * w.points.Keys, jitterNew, jitterAgain, now, nextCron)
  }

  /**
   * `populateCleanupLogAndScheduleCleanup`: both diffs of the queue against
   * the ledger, then, when the interval marker is rewritten, the reschedule
   * of every user read from the queue.
   */
  method PopulateCleanupLogAndScheduleCleanup(ctx: Context, scoreRows: seq<ZMember>, logRows: seq<ZMember>,
                                              jitterNew: string -> int, jitterAgain: string -> int, now: int, nextCron: int)
    requires IsListing(scoreRows, ctx.points) && IsListing(logRows, ctx.cleanupLog)
    modifies ctx
    ensures ctx.State() == PopulateSpec(old(ctx.State()), jitterNew, jitterAgain, now, nextCron)
  {
    ghost var w := ctx.State();
    var existingScoreUsers := Names(scoreRows);
    var cleanupLogUsers := Names(logRows);
    NamesOfListing(scoreRows, ctx.points);
    NamesOfListing(logRows, ctx.cleanupLog);
    var cleanupLogUsersWithoutScores := ReconcileQueue(ctx, existingScoreUsers, cleanupLogUsers, jitterNew, now);
    ghost var log := ReconciledQueue(w.points, w.cleanupLog, now, jitterNew);
    assert ctx.State() == w.(cleanupLog := log);

    if ctx.prevTimeBetweenChecks == Some(CHECK_INTERVAL_MARKER) {
      return;
    }
    ctx.prevTimeBetweenChecks := Some(CHECK_INTERVAL_MARKER);

    assert (set u | u in cleanupLogUsers) == w.cleanupLog.Keys;
    ghost var moved := Jittered(log, w.cleanupLog.Keys, now, jitterAgain);
    RescheduleUsers(ctx, cleanupLogUsers, jitterAgain, now);
    ctx.jobs := WithoutAdhocJobs(ctx.jobs);
    ghost var beforeRearm := w.(cleanupLog := moved, prevTimeBetweenChecks := Some(CHECK_INTERVAL_MARKER), jobs := WithoutAdhocJobs(w.jobs));
    assert ctx.State() == beforeRearm;
    assert PopulateSpec(w, jitterNew, jitterAgain, now, nextCron) == beforeRearm.(jobs := beforeRearm.jobs + RearmJobs(moved, nextCron));
    ScheduleAdhocCleanup(ctx, nextCron);
  }

  /** The reschedule step: every listed user moves to `now` plus their random offset; an empty list writes nothing. */
  method RescheduleUsers(ctx: Context, usernames: seq<string>, jitter: string -> int, now: int)
    modifies ctx
    ensures ctx.State() == old(ctx.State()).(cleanupLog := Jittered(old(ctx.cleanupLog), (set u | u in usernames), now, jitter))
  {
    ZAddJittered(ctx.cleanupLog, usernames, now, jitter);
    if |usernames| > 0 {
      ctx.cleanupLog := ZAdd(ctx.cleanupLog, JitteredEntries(usernames, now, jitter));
    } else {
      assert Jittered(ctx.cleanupLog, {}, now, jitter) == ctx.cleanupLog;
    }
  }

  /** The two diffs of the consistency pass: add scored users missing from the queue, drop queued users without a score. */
  method ReconcileQueue(ctx: Context, existingScoreUsers: seq<string>, cleanupLogUsers: seq<string>,
                        jitterNew: string -> int, now: int) returns (cleanupLogUsersWithoutScores: seq<string>)
    requires forall u :: u in existingScoreUsers <==> u in ctx.points
    requires forall u :: u in cleanupLogUsers <==> u in ctx.cleanupLog
    modifies ctx
    ensures ctx.State() == old(ctx.State()).(cleanupLog := ReconciledQueue(old(ctx.points), old(ctx.cleanupLog), now, jitterNew))
    ensures forall u :: u in cleanupLogUsersWithoutScores <==> u in old(ctx.cleanupLog) && u !in ctx.points
  {
    ghost var log := ctx.cleanupLog;
    var existingScoreUsersWithoutCleanup := Without(existingScoreUsers, cleanupLogUsers);
    if |existingScoreUsersWithoutCleanup| > 0 {
      ZAddJittered(ctx.cleanupLog, existingScoreUsersWithoutCleanup, now, jitterNew);
      ctx.cleanupLog := ZAdd(ctx.cleanupLog, JitteredEntries(existingScoreUsersWithoutCleanup, now, jitterNew));
    }
    cleanupLogUsersWithoutScores := Without(cleanupLogUsers, existingScoreUsers);
    if |cleanupLogUsersWithoutScores| > 0 {
      ctx.cleanupLog := ZRem(ctx.cleanupLog, cleanupLogUsersWithoutScores);
    }
    QueueReconciled(ctx.points, log, ctx.cleanupLog, existingScoreUsersWithoutCleanup,
                    cleanupLogUsersWithoutScores, now, jitterNew);
  }

  lemma QueueReconciled(points: map<string, int>, log: map<string, int>, result: map<string, int>,
                        added: seq<string>, removed: seq<string>, now: int, jitter: string -> int)
    requires forall u :: u in added <==> u in points && u !in log
    requires forall u :: u in removed <==> u in log && u !in points
    requires result == (var l := if |added| > 0 then ZAdd(log, JitteredEntries(added, now, jitter)) else log;
                        if |removed| > 0 then ZRem(l, removed) else l)
    ensures result == ReconciledQueue(points, log, now, jitter)
  {
    ZAddJittered(log, added, now, jitter);
  }

  /** Reconciling a queue that already holds exactly the scored users changes nothing. */
  lemma ReconcileAlignedQueue(points: map<string, int>, log: map<string, int>, now: int, jitter: string -> int)
    requires log.Keys == points.Keys
    ensures ReconciledQueue(points, log, now, jitter) == log
  {
    var r := ReconciledQueue(points, log, now, jitter);
    assert r.Keys == log.Keys;
    assert forall k | k in r :: r[k] == log[k];
  }

  /**
   * As written, the pass leaves the ledger alone and stores the marker; its
   * queue holds the scored users and, when the marker is rewritten, every
   * user that was queued before, scored or not.
   */
  lemma PopulateQueueAsWritten(w: World, jitterNew: string -> int, jitterAgain: string -> int, now: int, nextCron: int)
    ensures var p := PopulateSpec(w, jitterNew, jitterAgain, now, nextCron);
            && p.points == w.points
            && p.prevTimeBetweenChecks == Some(CHECK_INTERVAL_MARKER)
            && p.cleanupLog.Keys == if w.prevTimeBetweenChecks == Some(CHECK_INTERVAL_MARKER) then w.points.Keys
                                    else w.points.Keys + w.cleanupLog.Keys
  {
    var log := ReconciledQueue(w.points, w.cleanupLog, now, jitterNew);
    var p := PopulateSpec(w, jitterNew, jitterAgain, now, nextCron);
    if w.prevTimeBetweenChecks == Some(CHECK_INTERVAL_MARKER) {
      assert p == w.(cleanupLog := log);
    } else {
      var moved := Jittered(log, w.cleanupLog.Keys, now, jitterAgain);
      assert p.cleanupLog == moved && p.points == w.points;
    }
  }

  /**
   * As written, a queued user without a score survives a pass that rewrites
   * the marker, and the next pass removes them: the pass is not idempotent.
   */
  lemma PopulateRequeuesUnscored(w: World, jitterNew: string -> int, jitterAgain: string -> int, now: int, nextCron: int,
                                 jitterNew': string -> int, jitterAgain': string -> int, now': int, nextCron': int, u: string)
    requires w.prevTimeBetweenChecks != Some(CHECK_INTERVAL_MARKER)
    requires u in w.cleanupLog && u !in w.points
    ensures var once := PopulateSpec(w, jitterNew, jitterAgain, now, nextCron);
            var twice := PopulateSpec(once, jitterNew', jitterAgain', now', nextCron');
            u in once.cleanupLog && u !in twice.cleanupLog && twice != once
  {
    PopulateQueueAsWritten(w, jitterNew, jitterAgain, now, nextCron);
    var once := PopulateSpec(w, jitterNew, jitterAgain, now, nextCron);
    PopulateQueueAsWritten(once, jitterNew', jitterAgain', now', nextCron');
  }

  /** As written, two passes align the queue with the ledger, and every later pass changes nothing. */
  lemma PopulateSettlesAfterTwoPasses(w: World, jitterNew: string -> int, jitterAgain: string -> int, now: int, nextCron: int,
                                      jitterNew': string -> int, jitterAgain': string -> int, now': int, nextCron': int,
                                      jitterNew'': string -> int, jitterAgain'': string -> int, now'': int, nextCron'': int)
    ensures var twice := PopulateSpec(PopulateSpec(w, jitterNew, jitterAgain, now, nextCron), jitterNew', jitterAgain', now', nextCron');
            && twice.points == w.points
            && twice.cleanupLog.Keys == w.points.Keys
            && PopulateSpec(twice, jitterNew'', jitterAgain'', now'', nextCron'') == twice
  {
    var once := PopulateSpec(w, jitterNew, jitterAgain, now, nextCron);
    PopulateQueueAsWritten(w, jitterNew, jitterAgain, now, nextCron);
    var twice := PopulateSpec(once, jitterNew', jitterAgain', now', nextCron');
    PopulateQueueAsWritten(once, jitterNew', jitterAgain', now', nextCron');
    PopulatePassFixesAlignedWorld(twice, twice.cleanupLog.Keys, jitterNew'', jitterAgain'', now'', nextCron'');
  }

  /** The intended pass leaves the queue holding exactly the scored users, and the ledger unchanged. */
  lemma PopulateAlignsQueueWithLedger(w: World, jitterNew: string -> int, jitterAgain: string -> int, now: int, nextCron: int)
    ensures PopulateSpecIntended(w, jitterNew, jitterAgain, now, nextCron).cleanupLog.Keys == w.points.Keys
    ensures PopulateSpecIntended(w, jitterNew, jitterAgain, now, nextCron).points == w.points
    ensures PopulateSpecIntended(w, jitterNew, jitterAgain, now, nextCron).prevTimeBetweenChecks == Some(CHECK_INTERVAL_MARKER)
  {
    var log := ReconciledQueue(w.points, w.cleanupLog, now, jitterNew);
    if w.prevTimeBetweenChecks != Some(CHECK_INTERVAL_MARKER) {
      var moved := Jittered(log, w.cleanupLog.Keys * w.points.Keys, now, jitterAgain);
      assert moved.Keys == w.points.Keys;
    }
  }

  /**
   * Every time the pass as written leaves in the queue lies in
   * [now, now + 28 days); when the stored interval already reads "28",
   * entries that were queued keep their time.
   */
  lemma PopulateTimesInWindow(w: World, jitterNew: string -> int, jitterAgain: string -> int, now: int, nextCron: int, u: string)
    requires IsJitter(jitterNew) && IsJitter(jitterAgain)
    requires u in PopulateSpec(w, jitterNew, jitterAgain, now, nextCron).cleanupLog
    ensures var t := PopulateSpec(w, jitterNew, jitterAgain, now, nextCron).cleanupLog[u];
            if u in w.cleanupLog && w.prevTimeBetweenChecks == Some(CHECK_INTERVAL_MARKER)
            then t == w.cleanupLog[u]
            else now <= t < now + CHECK_INTERVAL_MS
  {
    var log := ReconciledQueue(w.points, w.cleanupLog, now, jitterNew);
    if w.prevTimeBetweenChecks == Some(CHECK_INTERVAL_MARKER) {
      assert PopulateSpec(w, jitterNew, jitterAgain, now, nextCron).cleanupLog == log;
      ReconciledTime(w.points, w.cleanupLog, now, jitterNew, u);
    } else {
      assert PopulateSpec(w, jitterNew, jitterAgain, now, nextCron).cleanupLog == Jittered(log, w.cleanupLog.Keys, now, jitterAgain);
      RequeuedTime(w.points, w.cleanupLog, now, jitterNew, jitterAgain, u);
    }
  }

  /** A reconciled entry keeps its queued time, or is a fresh one in the window. */
  lemma ReconciledTime(points: map<string, int>, log: map<string, int>, now: int, jitter: string -> int, u: string)
    requires IsJitter(jitter)
    requires u in ReconciledQueue(points, log, now, jitter)
    ensures var t := ReconciledQueue(points, log, now, jitter)[u];
            if u in log then t == log[u] else now <= t < now + CHECK_INTERVAL_MS
  {
    assert 0 <= jitter(u) < CHECK_INTERVAL_MS;
  }

  /** After reconciling and moving every previously queued user, every time is in the window. */
  lemma RequeuedTime(points: map<string, int>, log: map<string, int>, now: int, jitterNew: string -> int, jitterAgain: string -> int, u: string)
    requires IsJitter(jitterNew) && IsJitter(jitterAgain)
    requires u in Jittered(ReconciledQueue(points, log, now, jitterNew), log.Keys, now, jitterAgain)
    ensures var t := Jittered(ReconciledQueue(points, log, now, jitterNew), log.Keys, now, jitterAgain)[u];
            now <= t < now + CHECK_INTERVAL_MS
  {
    if u in log {
      assert 0 <= jitterAgain(u) < CHECK_INTERVAL_MS;
    } else {
      ReconciledTime(points, log, now, jitterNew, u);
    }
  }

  /** A second intended pass, at any time and with any random draws, changes nothing. */
  lemma PopulateIdempotent(w: World, jitterNew: string -> int, jitterAgain: string -> int, now: int, nextCron: int,
                           jitterNew': string -> int, jitterAgain': string -> int, now': int, nextCron': int)
    ensures var once := PopulateSpecIntended(w, jitterNew, jitterAgain, now, nextCron);
            PopulateSpecIntended(once, jitterNew', jitterAgain', now', nextCron') == once
  {
    PopulateAlignsQueueWithLedger(w, jitterNew, jitterAgain, now, nextCron);
    var once := PopulateSpecIntended(w, jitterNew, jitterAgain, now, nextCron);
    PopulatePassFixesAlignedWorld(once, once.cleanupLog.Keys * once.points.Keys, jitterNew', jitterAgain', now', nextCron');
  }

  /**
   * A world whose interval marker is current and whose queue holds exactly
   * the scored users is left as it is, whichever users the reschedule would move.
   */
  lemma PopulatePassFixesAlignedWorld(w: World, moving: set<string>, jitterNew: string -> int, jitterAgain: string -> int,
                                      now: int, nextCron: int)
    requires w.prevTimeBetweenChecks == Some(CHECK_INTERVAL_MARKER) && w.cleanupLog.Keys == w.points.Keys
    ensures PopulatePass(w, moving, jitterNew, jitterAgain, now, nextCron) == w
  {
    ReconcileAlignedQueue(w.points, w.cleanupLog, now, jitterNew);
  }
}
