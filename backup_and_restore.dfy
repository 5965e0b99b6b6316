/**
 * src/backupAndRestore.ts: writing the ledger to a compressed wiki page and
 * merging such a page back into the ledger, either only for users without a
 * score ("skip") or also where the backup is strictly higher ("overwrite").
 */
module BackupAndRestore {
  import opened Wrappers
  import opened JsString
  import opened Codec
  import opened Settings
  import opened Host
  import CleanupTasks

  /** One ledger entry as stored in a backup: `u` the user name, `s` the score. */
  datatype CompactScore = CompactScore(u: string, s: int)

  const BACKUP_DISABLED := "Backup function is disabled."
  const BACKUP_DONE := "ReputatorBot points have been backed up to the wiki"
  const RESTORE_DISABLED := "Restore function is disabled in Settings."
  const NO_BACKUP := "There are no backups to restore"
  const UNDECODABLE := "Sorry, the backup could not be decoded."
  const INVALID_FORMAT := "Sorry, the backup is in an invalid format."
  const NOTHING_TO_IMPORT := "No scores could be imported with the chosen settings."
  const IMPORT_REASON := "Imported data from backup"

  // ---------------------------------------------------------------------
  // The JSON shape of a backup and the schema check

  function EncodeScore(c: CompactScore): Json {
    JObject(map["u" := JString(c.u), "s" := JNumber(c.s as real)])
  }

  /** `JSON.stringify` input: the list of compact scores as a JSON array. */
  function EncodeScores(scores: seq<CompactScore>): (doc: Json)
    ensures doc.JArray? && |doc.items| == |scores|
    ensures forall i :: 0 <= i < |scores| ==> doc.items[i] == EncodeScore(scores[i])
  {
    JArray(seq(|scores|, i requires 0 <= i < |scores| => EncodeScore(scores[i])))
  }

  predicate IsIntegral(n: real) {
    n.Floor as real == n
  }

  /**
   * The item schema: an object with exactly the keys `u` and `s`, `u` a
   * string and `s` an integer.
   */
  function DecodeScore(item: Json): (r: Option<CompactScore>)
    ensures r.Some? ==> EncodeScore(r.value) == item
  {
    if && item.JObject? && item.fields.Keys == {"u", "s"}
       && item.fields["u"].JString? && item.fields["s"].JNumber? && IsIntegral(item.fields["s"].n)
    then
      var c := CompactScore(item.fields["u"].s, item.fields["s"].n.Floor);
      assert EncodeScore(c).fields == item.fields;
      Some(c)
    else None
  }

  function DecodeScores(items: seq<Json>): (r: Option<seq<CompactScore>>)
    ensures r.Some? ==> |r.value| == |items| && forall i :: 0 <= i < |items| ==> EncodeScore(r.value[i]) == items[i]
    ensures r.None? <==> exists i :: 0 <= i < |items| && DecodeScore(items[i]).None?
    decreases |items|
  {
    if items == [] then Some([])
    else
      match (DecodeScore(items[0]), DecodeScores(items[1..]))
      case (Some(c), Some(rest)) => Some([c] + rest)
      case _ =>
        assert forall i :: 0 <= i < |items[1..]| ==> items[1..][i] == items[i + 1];
        None
  }

  /**
   * `ajv.compile(schema)` applied to a parsed document: an array of items
   * of the item schema. What it accepts is exactly what encoding the
   * accepted list gives back.
   */
  function Validate(doc: Json): (r: Option<seq<CompactScore>>)
    ensures r.Some? ==> EncodeScores(r.value) == doc
    ensures r.Some? <==> doc.JArray? && forall i :: 0 <= i < |doc.items| ==> DecodeScore(doc.items[i]).Some?
  {
    if doc.JArray? then
      var r := DecodeScores(doc.items);
      assert r.Some? ==> EncodeScores(r.value).items == doc.items;
      r
    else None
  }

  /** Any list of compact scores passes the schema and comes back unchanged. */
  lemma ValidateEncodeScores(scores: seq<CompactScore>)
    ensures Validate(EncodeScores(scores)) == Some(scores)
  {
    var doc := EncodeScores(scores);
    forall i | 0 <= i < |scores| ensures DecodeScore(doc.items[i]) == Some(scores[i]) {
      var item := doc.items[i];
      assert item.fields["s"].n.Floor == scores[i].s;
    }
    var r := Validate(doc);
    assert r.Some?;
    assert |r.value| == |scores|;
    forall i | 0 <= i < |scores| ensures r.value[i] == scores[i] {
      assert EncodeScore(r.value[i]) == EncodeScore(scores[i]);
      assert r.value[i].u == EncodeScore(r.value[i]).fields["u"].s;
      assert (r.value[i].s as real).Floor == r.value[i].s;
    }
    assert r.value == scores;
  }

  /** `compressScores` followed by `decompressScores` and the schema check returns the list that was compressed. */
  lemma BackupRoundTrip(scores: seq<CompactScore>)
    ensures var doc := Decompress(Compress(EncodeScores(scores)));
            doc.Some? && Validate(doc.value) == Some(scores)
  {
    DecompressCompress(EncodeScores(scores));
    ValidateEncodeScores(scores);
  }

  // ---------------------------------------------------------------------
  // backupAllScores

  /** The backup mapping: one `{u, s}` per listed ledger entry, in listing order. */
  function BackupEntries(rows: seq<ZMember>): (r: seq<CompactScore>)
    ensures |r| == |rows|
    ensures forall i :: 0 <= i < |rows| ==> r[i] == CompactScore(rows[i].member, rows[i].score)
  {
    seq(|rows|, i requires 0 <= i < |rows| => CompactScore(rows[i].member, rows[i].score))
  }

  /** A backup of a full listing names every ledger user exactly once, with their score. */
  lemma BackupCoversLedger(rows: seq<ZMember>, points: map<string, int>)
    requires IsListing(rows, points)
    ensures var entries := BackupEntries(rows);
            && |entries| == |points|
            && (forall i :: 0 <= i < |entries| ==> entries[i].u in points && points[entries[i].u] == entries[i].s)
            && (forall u :: u in points ==> exists i :: 0 <= i < |entries| && entries[i].u == u)
            && (forall i, j :: 0 <= i < j < |entries| ==> entries[i].u != entries[j].u)
  {
    DistinctMembersCount(rows);
    assert |points| == |points.Keys|;
    forall u | u in points ensures exists i :: 0 <= i < |rows| && rows[i].member == u {
      assert u in Members(rows);
    }
  }

  datatype BackupOutcome = BackupOutcome(world: World, toast: string)

  /**
   * `backupAllScores`: when enabled, the compressed entries replace the
   * backup page's content; a page that did not exist is created mods-only.
   */
  function BackupSpec(w: World, settings: AppSettings, rows: seq<ZMember>): BackupOutcome {
    if !settings.enableBackup then BackupOutcome(w, BACKUP_DISABLED)
    else
      var blob := Compress(EncodeScores(BackupEntries(rows)));
      var level := if w.backupPage.Some? then w.backupPage.value.permLevel else ModsOnly;
      BackupOutcome(w.(backupPage := Some(BackupPage(blob, level))), BACKUP_DONE)
  }

  /** `backupAllScores`; `rows` is the answer to `zRange(thanksPointsStore, 0, -1)`. */
  method BackupAllScores(ctx: Context, settings: AppSettings, rows: seq<ZMember>) returns (toast: string)
    requires IsListing(rows, ctx.points)
    modifies ctx
    ensures ctx.State() == BackupSpec(old(ctx.State()), settings, rows).world
    ensures toast == BackupSpec(old(ctx.State()), settings, rows).toast
  {
    if !settings.enableBackup {
      return BACKUP_DISABLED;
    }
    var compactScores := BackupEntries(rows);
    var compressed := Compress(EncodeScores(compactScores));
    if ctx.backupPage.Some? {
      ctx.backupPage := Some(BackupPage(compressed, ctx.backupPage.value.permLevel));
    } else {
      ctx.backupPage := Some(BackupPage(compressed, ModsOnly));
    }
    toast := BACKUP_DONE;
  }

  /** After a backup the page decodes, passes the schema and holds exactly the ledger. */
  lemma BackupHoldsLedger(w: World, settings: AppSettings, rows: seq<ZMember>)
    requires settings.enableBackup && IsListing(rows, w.points)
    ensures var page := BackupSpec(w, settings, rows).world.backupPage;
            && page.Some?
            && Decompress(page.value.blob).Some?
            && Validate(Decompress(page.value.blob).value) == Some(BackupEntries(rows))
            && (w.backupPage.None? ==> page.value.permLevel == ModsOnly)
  {
    BackupRoundTrip(BackupEntries(rows));
  }

  // ---------------------------------------------------------------------
  // showRestoreForm

  datatype RestorePrompt = RestoreToast(message: string) | RestoreForm

  /** `showRestoreForm`: the form appears only when restore is enabled and a backup page exists. */
  function ShowRestoreForm(w: World, settings: AppSettings): (r: RestorePrompt)
    ensures r.RestoreForm? <==> settings.enableRestore && w.backupPage.Some?
    ensures !settings.enableRestore ==> r == RestoreToast(RESTORE_DISABLED)
  {
    if !settings.enableRestore then RestoreToast(RESTORE_DISABLED)
    else if w.backupPage.None? then RestoreToast(NO_BACKUP)
    else RestoreForm
  }

  // ---------------------------------------------------------------------
  // restoreFormHandler

  predicate Qualifies(c: CompactScore) {
    c.u != [] && c.s > 0
  }

  /**
   * `backupScoreIsHigher`: the first listed row for the user decides; a user
   * with no row is never higher.
   */
  function BackupScoreIsHigher(backupScore: CompactScore, existingScores: seq<ZMember>): (r: bool)
    ensures r ==> backupScore.u in Members(existingScores)
    decreases |existingScores|
  {
    if existingScores == [] then false
    else if existingScores[0].member == backupScore.u then backupScore.s > existingScores[0].score
    else
      MembersCons(existingScores);
      BackupScoreIsHigher(backupScore, existingScores[1..])
  }

  /** Against a listing of the ledger, `backupScoreIsHigher` is a strict comparison with the user's ledger score. */
  lemma {:induction false} BackupScoreIsHigherOnListing(backupScore: CompactScore, rows: seq<ZMember>, points: map<string, int>)
    requires InStore(rows, points)
    ensures BackupScoreIsHigher(backupScore, rows)
            <==> backupScore.u in Members(rows) && backupScore.s > points[backupScore.u]
    decreases |rows|
  {
    if rows != [] {
      MembersCons(rows);
      assert InStore(rows[1..], points) by {
        forall i | 0 <= i < |rows[1..]| ensures rows[1..][i] == rows[i + 1] { }
      }
      BackupScoreIsHigherOnListing(backupScore, rows[1..], points);
    }
  }

  /** Qualifying backup entries for users with no row in the listing, in backup order. */
  function NotYetScored(scores: seq<CompactScore>, existingScores: seq<ZMember>): (r: seq<CompactScore>)
    ensures |r| <= |scores|
    ensures forall c :: c in r <==> c in scores && Qualifies(c) && c.u !in Members(existingScores)
    ensures r == [] <==> forall c :: c in scores ==> !(Qualifies(c) && c.u !in Members(existingScores))
    decreases |scores|
  {
    if scores == [] then []
    else
      var rest := NotYetScored(scores[1..], existingScores);
      assert forall c :: c in scores <==> c == scores[0] || c in scores[1..];
      if Qualifies(scores[0]) && scores[0].u !in Members(existingScores) then [scores[0]] + rest else rest
  }

  /** Qualifying backup entries that beat the user's listed score, in backup order. */
  function HigherScores(scores: seq<CompactScore>, existingScores: seq<ZMember>): (r: seq<CompactScore>)
    ensures |r| <= |scores|
    ensures forall c :: c in r <==> c in scores && Qualifies(c) && BackupScoreIsHigher(c, existingScores)
    ensures r == [] <==> forall c :: c in scores ==> !(Qualifies(c) && BackupScoreIsHigher(c, existingScores))
    decreases |scores|
  {
    if scores == [] then []
    else
      var rest := HigherScores(scores[1..], existingScores);
      assert forall c :: c in scores <==> c == scores[0] || c in scores[1..];
      if Qualifies(scores[0]) && BackupScoreIsHigher(scores[0], existingScores) then [scores[0]] + rest else rest
  }

  /** `scoresToAdd`: the new users, then, in overwrite mode, the strictly higher ones. */
  function ScoresToAdd(scores: seq<CompactScore>, existingScores: seq<ZMember>, overwrite: bool): seq<CompactScore> {
    NotYetScored(scores, existingScores) + (if overwrite then HigherScores(scores, existingScores) else [])
  }

  function ToMembers(scores: seq<CompactScore>): (r: seq<ZMember>)
    ensures |r| == |scores|
    ensures forall i :: 0 <= i < |scores| ==> r[i] == ZMember(scores[i].u, scores[i].s)
  {
    seq(|scores|, i requires 0 <= i < |scores| => ZMember(scores[i].u, scores[i].s))
  }

  /** `pluralize("score", n)` for the counts the handler reports. */
  function ScoreNoun(n: nat): string {
    if n == 1 then "score" else "scores"
  }

  function ImportedMessage(n: nat): string {
    "Successfully imported " + IntToString(n) + " " + ScoreNoun(n) + "."
  }

  /**
   * The import: write the scores, run the consistency pass, queue a
   * leaderboard update, forget the install date, cancel the ad-hoc cleanup
   * runs and rearm.
   */
  ghost function ImportSpec(w: World, toAdd: seq<CompactScore>, jitterNew: string -> int, jitterAgain: string -> int,
                            now: int, nextCron: int): World {
    var w1 := w.(points := ZAdd(w.points, ToMembers(toAdd)));
    var w2 := CleanupTasks.PopulateSpec(w1, jitterNew, jitterAgain, now, nextCron);
    var w3 := w2.(jobs := w2.jobs + [UpdateLeaderboardJob(now, IMPORT_REASON)], installDate := None);
    var jobs := CleanupTasks.WithoutAdhocJobs(w3.jobs);
    w3.(jobs := jobs + CleanupTasks.RearmJobs(w3.cleanupLog, nextCron))
  }

  datatype RestoreOutcome = RestoreOutcome(world: World, toast: string)

  /**
   * `restoreFormHandler` with `action` the chosen option and
   * `existingScores` the listing of the ledger it reads.
   */
  ghost function RestoreSpec(w: World, existingScores: seq<ZMember>, action: string,
                             jitterNew: string -> int, jitterAgain: string -> int, now: int, nextCron: int): RestoreOutcome {
    if w.backupPage.None? then RestoreOutcome(w, NO_BACKUP)
    else
      var doc := Decompress(w.backupPage.value.blob);
      if doc.None? then RestoreOutcome(w, UNDECODABLE)
      else
        var scores := Validate(doc.value);
        if scores.None? then RestoreOutcome(w, INVALID_FORMAT)
        else
          var toAdd := ScoresToAdd(scores.value, existingScores, action == "overwrite");
          if toAdd == [] then RestoreOutcome(w, NOTHING_TO_IMPORT)
          else RestoreOutcome(ImportSpec(w, toAdd, jitterNew, jitterAgain, now, nextCron), ImportedMessage(|toAdd|))
  }

  method ImportScores(ctx: Context, toAdd: seq<CompactScore>, jitterNew: string -> int, jitterAgain: string -> int,
                      now: int, nextCron: int)
    modifies ctx
    ensures ctx.State() == ImportSpec(old(ctx.State()), toAdd, jitterNew, jitterAgain, now, nextCron)
  {
    ctx.points := ZAdd(ctx.points, ToMembers(toAdd));
    var scoreRows := ZRangeAll(ctx.points);
    var logRows := ZRangeAll(ctx.cleanupLog);
    CleanupTasks.PopulateCleanupLogAndScheduleCleanup(ctx, scoreRows, logRows, jitterNew, jitterAgain, now, nextCron);
    ctx.jobs := ctx.jobs + [UpdateLeaderboardJob(now, IMPORT_REASON)];
    ctx.installDate := None;
    ctx.jobs := CleanupTasks.WithoutAdhocJobs(ctx.jobs);
    CleanupTasks.ScheduleAdhocCleanup(ctx, nextCron);
  }

  /** `restoreFormHandler`; `existingScores` is the answer to `zRange(thanksPointsStore, 0, -1)`. */
  method RestoreFormHandler(ctx: Context, existingScores: seq<ZMember>, action: string,
                            jitterNew: string -> int, jitterAgain: string -> int, now: int, nextCron: int)
    returns (toast: string)
    requires IsListing(existingScores, ctx.points)
    modifies ctx
    ensures ctx.State() == RestoreSpec(old(ctx.State()), existingScores, action, jitterNew, jitterAgain, now, nextCron).world
    ensures toast == RestoreSpec(old(ctx.State()), existingScores, action, jitterNew, jitterAgain, now, nextCron).toast
  {
    if ctx.backupPage.None? {
      return NO_BACKUP;
    }
    var doc := Decompress(ctx.backupPage.value.blob);
    if doc.None? {
      return UNDECODABLE;
    }
    var scores := Validate(doc.value);
    if scores.None? {
      return INVALID_FORMAT;
    }
    var scoresToAdd := ScoresToAdd(scores.value, existingScores, action == "overwrite");
    if |scoresToAdd| == 0 {
      return NOTHING_TO_IMPORT;
    }
    ImportScores(ctx, scoresToAdd, jitterNew, jitterAgain, now, nextCron);
    toast := ImportedMessage(|scoresToAdd|);
  }

  // ---------------------------------------------------------------------
  // Properties of the merge

  /** The consistency pass and the job bookkeeping leave the ledger as the import wrote it. */
  lemma ImportWritesLedger(w: World, toAdd: seq<CompactScore>, jitterNew: string -> int, jitterAgain: string -> int,
                           now: int, nextCron: int)
    ensures ImportSpec(w, toAdd, jitterNew, jitterAgain, now, nextCron).points == ZAdd(w.points, ToMembers(toAdd))
  {
    var w1 := w.(points := ZAdd(w.points, ToMembers(toAdd)));
    CleanupTasks.PopulateQueueAsWritten(w1, jitterNew, jitterAgain, now, nextCron);
  }

  /** The scores a restore leaves in the ledger. */
  ghost function RestoredPoints(w: World, existingScores: seq<ZMember>, action: string,
                                jitterNew: string -> int, jitterAgain: string -> int, now: int, nextCron: int): map<string, int>
    requires IsListing(existingScores, w.points)
  {
    RestoreSpec(w, existingScores, action, jitterNew, jitterAgain, now, nextCron).world.points
  }

  /** The entries a restore writes: none when the page is missing or fails to decode or validate. */
  function ImportedScores(w: World, existingScores: seq<ZMember>, action: string): seq<CompactScore> {
    if w.backupPage.None? then []
    else
      var doc := Decompress(w.backupPage.value.blob);
      if doc.None? then []
      else
        var scores := Validate(doc.value);
        if scores.None? then [] else ScoresToAdd(scores.value, existingScores, action == "overwrite")
  }

  /** A restore leaves the ledger as the old one with the imported entries written over it, in order. */
  lemma RestoreWritesLedger(w: World, existingScores: seq<ZMember>, action: string,
                            jitterNew: string -> int, jitterAgain: string -> int, now: int, nextCron: int)
    requires IsListing(existingScores, w.points)
    ensures RestoredPoints(w, existingScores, action, jitterNew, jitterAgain, now, nextCron)
            == ZAdd(w.points, ToMembers(ImportedScores(w, existingScores, action)))
  {
    var toAdd := ImportedScores(w, existingScores, action);
    if toAdd != [] {
      ImportWritesLedger(w, toAdd, jitterNew, jitterAgain, now, nextCron);
    }
  }

  /** Every user written by an import gets the score of some qualifying entry: named, positive, and in skip mode new. */
  lemma ImportedEntry(points: map<string, int>, existingScores: seq<ZMember>, scores: seq<CompactScore>, overwrite: bool, k: string)
    requires IsListing(existingScores, points)
    requires k in Members(ToMembers(ScoresToAdd(scores, existingScores, overwrite)))
    ensures exists c :: c in scores && Qualifies(c) && c.u == k
                        && ZAdd(points, ToMembers(ScoresToAdd(scores, existingScores, overwrite)))[k] == c.s
                        && (k !in points || (overwrite && c.s > points[k]))
  {
    var toAdd := ScoresToAdd(scores, existingScores, overwrite);
    ZAddLastWins(points, ToMembers(toAdd), k);
    var i :| 0 <= i < |toAdd| && ToMembers(toAdd)[i].member == k && ZAdd(points, ToMembers(toAdd))[k] == ToMembers(toAdd)[i].score
             && forall j :: i < j < |toAdd| ==> ToMembers(toAdd)[j].member != k;
    var c := toAdd[i];
    assert c in NotYetScored(scores, existingScores) || (overwrite && c in HigherScores(scores, existingScores));
    if c !in NotYetScored(scores, existingScores) {
      BackupScoreIsHigherOnListing(c, existingScores, points);
    }
  }

  /** A decode failure, a schema failure or a missing page leaves everything as it was. */
  lemma RestoreFailureChangesNothing(w: World, existingScores: seq<ZMember>, action: string,
                                     jitterNew: string -> int, jitterAgain: string -> int, now: int, nextCron: int)
    requires IsListing(existingScores, w.points)
    requires || w.backupPage.None?
             || Decompress(w.backupPage.value.blob).None?
             || Validate(Decompress(w.backupPage.value.blob).value).None?
    ensures RestoreSpec(w, existingScores, action, jitterNew, jitterAgain, now, nextCron).world == w
  {
  }

  /** In skip mode no user who already has a score changes score. */
  lemma RestoreSkipKeepsExistingScores(w: World, existingScores: seq<ZMember>, action: string,
                                       jitterNew: string -> int, jitterAgain: string -> int, now: int, nextCron: int)
    requires IsListing(existingScores, w.points)
    requires action != "overwrite"
    ensures var after := RestoredPoints(w, existingScores, action, jitterNew, jitterAgain, now, nextCron);
            forall k :: k in w.points ==> k in after && after[k] == w.points[k]
  {
    RestoreWritesLedger(w, existingScores, action, jitterNew, jitterAgain, now, nextCron);
    var toAdd := ImportedScores(w, existingScores, action);
    if toAdd != [] {
      var scores := Validate(Decompress(w.backupPage.value.blob).value).value;
      forall k | k in w.points && k in Members(ToMembers(toAdd)) ensures false {
        ImportedEntry(w.points, existingScores, scores, false, k);
      }
    }
  }

  /** In either mode no score goes down. */
  lemma RestoreNeverLowersScores(w: World, existingScores: seq<ZMember>, action: string,
                                 jitterNew: string -> int, jitterAgain: string -> int, now: int, nextCron: int)
    requires IsListing(existingScores, w.points)
    ensures var after := RestoredPoints(w, existingScores, action, jitterNew, jitterAgain, now, nextCron);
            forall k :: k in w.points ==> k in after && after[k] >= w.points[k]
  {
    RestoreWritesLedger(w, existingScores, action, jitterNew, jitterAgain, now, nextCron);
    var toAdd := ImportedScores(w, existingScores, action);
    var after := ZAdd(w.points, ToMembers(toAdd));
    if toAdd != [] {
      var scores := Validate(Decompress(w.backupPage.value.blob).value).value;
      forall k | k in w.points && k in Members(ToMembers(toAdd)) ensures after[k] >= w.points[k] {
        ImportedEntry(w.points, existingScores, scores, action == "overwrite", k);
      }
    }
  }

  /**
   * Only named entries with a positive score are imported: a user the
   * restore adds or changes holds the score of such an entry of the backup.
   * Users the backup does not name keep their scores.
   */
  lemma RestoreImportsOnlyQualifyingEntries(w: World, existingScores: seq<ZMember>, action: string,
                                            jitterNew: string -> int, jitterAgain: string -> int, now: int, nextCron: int)
    requires IsListing(existingScores, w.points)
    requires w.backupPage.Some? && Decompress(w.backupPage.value.blob).Some?
    requires Validate(Decompress(w.backupPage.value.blob).value).Some?
    ensures var scores := Validate(Decompress(w.backupPage.value.blob).value).value;
            var after := RestoredPoints(w, existingScores, action, jitterNew, jitterAgain, now, nextCron);
            && after.Keys >= w.points.Keys
            && (forall k :: k in after && (k !in w.points || after[k] != w.points[k]) ==>
                  exists c :: c in scores && Qualifies(c) && c.u == k && after[k] == c.s)
            && (forall k :: k in w.points && (forall c :: c in scores ==> c.u != k) ==> after[k] == w.points[k])
  {
    var scores := Validate(Decompress(w.backupPage.value.blob).value).value;
    var overwrite := action == "overwrite";
    var toAdd := ImportedScores(w, existingScores, action);
    RestoreWritesLedger(w, existingScores, action, jitterNew, jitterAgain, now, nextCron);
    var after := ZAdd(w.points, ToMembers(toAdd));
    if toAdd != [] {
      forall k | k in Members(ToMembers(toAdd))
        ensures exists c :: c in scores && Qualifies(c) && c.u == k && after[k] == c.s
      {
        ImportedEntry(w.points, existingScores, scores, overwrite, k);
      }
    }
  }

  /** When nothing qualifies the handler changes nothing and queues no follow-up job; otherwise it reports how many entries it wrote. */
  lemma RestoreReportsCount(w: World, existingScores: seq<ZMember>, action: string,
                            jitterNew: string -> int, jitterAgain: string -> int, now: int, nextCron: int)
    requires IsListing(existingScores, w.points)
    requires w.backupPage.Some? && Decompress(w.backupPage.value.blob).Some?
    requires Validate(Decompress(w.backupPage.value.blob).value).Some?
    ensures var scores := Validate(Decompress(w.backupPage.value.blob).value).value;
            var toAdd := ScoresToAdd(scores, existingScores, action == "overwrite");
            var outcome := RestoreSpec(w, existingScores, action, jitterNew, jitterAgain, now, nextCron);
            && (toAdd == [] ==> outcome.world == w && outcome.toast == NOTHING_TO_IMPORT)
            && (toAdd != [] ==> outcome.toast == ImportedMessage(|toAdd|)
                                && UpdateLeaderboardJob(now, IMPORT_REASON) in outcome.world.jobs
                                && outcome.world.installDate.None?)
  {
    var scores := Validate(Decompress(w.backupPage.value.blob).value).value;
    var toAdd := ScoresToAdd(scores, existingScores, action == "overwrite");
    if toAdd != [] {
      var w1 := w.(points := ZAdd(w.points, ToMembers(toAdd)));
      var w2 := CleanupTasks.PopulateSpec(w1, jitterNew, jitterAgain, now, nextCron);
      var w3 := w2.(jobs := w2.jobs + [UpdateLeaderboardJob(now, IMPORT_REASON)], installDate := None);
      assert UpdateLeaderboardJob(now, IMPORT_REASON) in w3.jobs;
      assert UpdateLeaderboardJob(now, IMPORT_REASON) in CleanupTasks.WithoutAdhocJobs(w3.jobs);
    }
  }

  /** No entry of a backup of the current ledger qualifies for import, in either mode. */
  lemma CurrentBackupQualifiesNothing(rows: seq<ZMember>, existingScores: seq<ZMember>, points: map<string, int>, overwrite: bool)
    requires IsListing(rows, points) && IsListing(existingScores, points)
    ensures ScoresToAdd(BackupEntries(rows), existingScores, overwrite) == []
  {
    var entries := BackupEntries(rows);
    BackupCoversLedger(rows, points);
    forall c | c in entries ensures c.u in Members(existingScores) && !BackupScoreIsHigher(c, existingScores) {
      BackupScoreIsHigherOnListing(c, existingScores, points);
    }
  }

  /** Restoring a backup taken from the current ledger imports nothing, in either mode. */
  lemma RestoreOfCurrentBackupChangesNothing(w: World, settings: AppSettings, rows: seq<ZMember>, existingScores: seq<ZMember>,
                                             action: string, jitterNew: string -> int, jitterAgain: string -> int,
                                             now: int, nextCron: int)
    requires settings.enableBackup && IsListing(rows, w.points) && IsListing(existingScores, w.points)
    ensures var backedUp := BackupSpec(w, settings, rows).world;
            RestoreSpec(backedUp, existingScores, action, jitterNew, jitterAgain, now, nextCron).world == backedUp
  {
    var backedUp := BackupSpec(w, settings, rows).world;
    BackupHoldsLedger(w, settings, rows);
    CurrentBackupQualifiesNothing(rows, existingScores, w.points, action == "overwrite");
    assert backedUp.points == w.points;
    assert ImportedScores(backedUp, existingScores, action) == [];
  }
}
