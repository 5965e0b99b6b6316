/**
 * Awarding reputation points: reading a user's score (badge text reconciled
 * with the ledger), the guard chain a comment passes before its parent's
 * author gains a point, the write of the new score, badge, dedup marker and
 * notifications, and the moderators' manual score form.
 */
module ThanksPoints {
  import opened Wrappers
  import opened JsString
  import opened Utility
  import opened Settings
  import opened Host
  import CleanupTasks

  /** `addWeeks(now, 1)` as an offset. */
  const WEEK_MS: int := 7 * CleanupTasks.DAY_MS

  // ---------------------------------------------------------------------
  // getCurrentScore

  /** A badge read as a score: a number, or the not-a-number flag. */
  datatype FlairScore = FlairNumber(value: nat) | FlairNaN

  /** Badge text: absent, empty or "-" is 0; `^\d+$` text is its decimal value; anything else is not a number. */
  function ScoreFromFlair(flairText: Option<string>): (r: FlairScore)
    ensures flairText.None? || flairText.value == [] || flairText.value == "-" ==> r == FlairNumber(0)
    ensures r.FlairNaN? <==> flairText.Some? && flairText.value != [] && flairText.value != "-" && !AllDigits(flairText.value)
    ensures flairText.Some? && flairText.value != [] && AllDigits(flairText.value) ==> r == FlairNumber(DecimalValue(flairText.value))
  {
    if flairText.None? || flairText.value == [] || flairText.value == "-" then FlairNumber(0)
    else if !AllDigits(flairText.value) then FlairNaN
    else FlairNumber(DecimalValue(flairText.value))
  }

  /** The badge text the bot writes reads back as the score it wrote, or as not a number for a negative score. */
  lemma FlairTextRoundTrip(score: int)
    ensures ScoreFromFlair(Some(IntToString(score))) == if score >= 0 then FlairNumber(score) else FlairNaN
  {
    if score >= 0 {
      DecimalRoundTrip(score);
    } else {
      var text := IntToString(score);
      assert text[0] == '-' && !IsDigit(text[0]);
      assert |text| > 1;
    }
  }

  datatype ScoreResult = ScoreResult(currentScore: int, flairScoreIsNaN: bool)

  /**
   * Reconciling a badge with the ledger: a numeric badge wins outright under
   * the precedence flag, else the larger of the two counts; a non-numeric
   * badge leaves the ledger value.
   */
  function ReconcileScore(flair: FlairScore, scoreFromRedis: int, prioritiseScoreFromFlair: bool): (r: ScoreResult)
    ensures r.flairScoreIsNaN <==> flair.FlairNaN?
    ensures flair.FlairNaN? ==> r.currentScore == scoreFromRedis
    ensures flair.FlairNumber? && prioritiseScoreFromFlair ==> r.currentScore == flair.value
    ensures flair.FlairNumber? && !prioritiseScoreFromFlair ==>
              r.currentScore >= flair.value && r.currentScore >= scoreFromRedis
              && (r.currentScore == flair.value || r.currentScore == scoreFromRedis)
  {
    match flair
    case FlairNaN => ScoreResult(scoreFromRedis, true)
    case FlairNumber(n) =>
      if prioritiseScoreFromFlair then ScoreResult(n, false)
      else ScoreResult(if n > scoreFromRedis then n else scoreFromRedis, false)
  }

  /** `zScore(...) ?? 0`. */
  function LedgerScore(points: map<string, int>, username: string): int {
    if username in points then points[username] else 0
  }

  function FlairTextOf(w: World, username: string): Option<string> {
    if username in w.userFlairs then Some(w.userFlairs[username].text) else None
  }

  /** `getCurrentScore`. */
  function GetCurrentScore(w: World, username: string, settings: AppSettings): ScoreResult {
    ReconcileScore(ScoreFromFlair(FlairTextOf(w, username)), LedgerScore(w.points, username), settings.prioritiseScoreFromFlair)
  }

  // ---------------------------------------------------------------------
  // Lists held in settings

  /** `setting.split(",").map(name => name.trim().toLowerCase())`. */
  function NameList(setting: string): (r: seq<string>)
    ensures |r| == |Split(setting, ",")|
    ensures forall i :: 0 <= i < |r| ==> r[i] == ToLower(Trim(Split(setting, ",")[i]))
  {
    var parts := Split(setting, ",");
    seq(|parts|, i requires 0 <= i < |parts| => ToLower(Trim(parts[i])))
  }

  /** A comma-separated list setting that is set and names the user, in any letter case. */
  predicate Listed(setting: Option<string>, username: string) {
    IsSet(setting) && ToLower(username) in NameList(setting.value)
  }

  /** `setting?.split("\n").map(command => command.toLowerCase().trim()) ?? []`. */
  function CommandList(setting: Option<string>): (r: seq<string>)
    ensures setting.Some? ==> |r| == |Split(setting.value, "\n")|
    ensures setting.Some? ==> forall i :: 0 <= i < |r| ==> r[i] == Trim(ToLower(Split(setting.value, "\n")[i]))
  {
    match setting
    case None => []
    case Some(value) =>
      var lines := Split(value, "\n");
      seq(|lines|, i requires 0 <= i < |lines| => Trim(ToLower(lines[i])))
  }

  // ---------------------------------------------------------------------
  // getUserIsSuperuser

  /**
   * `getUserIsSuperuser`: named on the superuser list, or (with a non-zero
   * threshold) an account that resolves and whose score reaches it.
   */
  predicate IsSuperuser(w: World, reddit: Reddit, settings: AppSettings, username: string) {
    var threshold := settings.autoSuperuserThreshold.GetOr(0);
    || ToLower(username) in NameList(settings.superUsers.GetOr(""))
    || (threshold != 0 && username in reddit.users && GetCurrentScore(w, username, settings).currentScore >= threshold)
  }

  /** Without a listing and with a zero threshold, or for an account that does not resolve, nobody is a superuser. */
  lemma SuperuserNeedsListingOrScore(w: World, reddit: Reddit, settings: AppSettings, username: string)
    requires ToLower(username) !in NameList(settings.superUsers.GetOr(""))
    requires settings.autoSuperuserThreshold.GetOr(0) == 0 || username !in reddit.users
    ensures !IsSuperuser(w, reddit, settings, username)
  {
  }

  /**
   * A name on the comma-separated superuser list makes that user a superuser,
   * whatever the padding around the name, the letter case and the score.
   */
  lemma ListedSuperuser(w: World, reddit: Reddit, settings: AppSettings, names: seq<string>, k: int, username: string)
    requires settings.superUsers == Some(Join(names, ","))
    requires forall i :: 0 <= i < |names| ==> !Contains(names[i], ",")
    requires 0 <= k < |names| && ToLower(username) == ToLower(Trim(names[k]))
    ensures IsSuperuser(w, reddit, settings, username)
  {
    SplitJoin(names, ",");
    assert NameList(Join(names, ","))[k] == ToLower(username);
  }

  // ---------------------------------------------------------------------
  // The comment event

  datatype EventComment = EventComment(id: string, parentId: string, body: string)
  datatype EventPost = EventPost(id: string, authorId: string, linkFlairText: Option<string>)
  datatype EventAuthor = EventAuthor(id: string, name: string)
  /** A `CommentSubmit` or `CommentUpdate` trigger; any part may be missing. */
  datatype CommentEvent = CommentEvent(
    comment: Option<EventComment>, post: Option<EventPost>, author: Option<EventAuthor>, subredditName: Option<string>)

  /** `isLinkId`: the parent is the post, so the comment is top-level. */
  predicate IsLinkId(id: string) {
    "t3_" <= id
  }

  predicate ContainsUserCommand(settings: AppSettings, reddit: Reddit, body: string) {
    var commands := CommandList(settings.thanksCommand);
    if settings.thanksCommandUsesRegex then exists i :: 0 <= i < |commands| && reddit.regexTest(commands[i], body)
    else exists i :: 0 <= i < |commands| && Contains(ToLower(body), commands[i])
  }

  predicate ContainsModCommand(settings: AppSettings, body: string) {
    IsSet(settings.modThanksCommand) && Contains(ToLower(body), Trim(ToLower(settings.modThanksCommand.value)))
  }

  /** An empty line in the user command list matches every comment. */
  lemma EmptyCommandMatchesEverything(settings: AppSettings, reddit: Reddit, body: string)
    requires !settings.thanksCommandUsesRegex
    requires [] in CommandList(settings.thanksCommand)
    ensures ContainsUserCommand(settings, reddit, body)
  {
    var commands := CommandList(settings.thanksCommand);
    var i :| 0 <= i < |commands| && commands[i] == [];
    assert Contains(ToLower(body), commands[i]);
  }

  lemma {:induction false} SplitTrailingSeparator(s: string, c: char, cur: string)
    ensures var parts := SplitFrom(s + [c], [c], cur); parts[|parts| - 1] == []
    decreases |s|
  {
    if s == [] {
      assert [c] <= s + [c];
      assert (s + [c])[1..] == [];
    } else if s[0] == c {
      assert [c] <= s + [c];
      assert (s + [c])[1..] == s[1..] + [c];
      SplitTrailingSeparator(s[1..], c, []);
    } else {
      assert (s + [c])[1..] == s[1..] + [c];
      SplitTrailingSeparator(s[1..], c, cur + [s[0]]);
    }
  }

  /** So a command setting that ends in a line break awards a point for every comment. */
  lemma TrailingLineBreakMatchesEverything(settings: AppSettings, reddit: Reddit, command: string, body: string)
    requires !settings.thanksCommandUsesRegex
    requires settings.thanksCommand == Some(command + "\n")
    ensures ContainsUserCommand(settings, reddit, body)
  {
    assert "\n" == ['\n'];
    var lines := Split(command + "\n", "\n");
    assert lines == SplitFrom(command + ['\n'], ['\n'], []);
    var last := lines[|lines| - 1];
    assert last == [] by {
      SplitTrailingSeparator(command, '\n', []);
    }
    assert |ToLower(last)| == 0;
    assert Trim(ToLower(last)) == [];
    var commands := CommandList(settings.thanksCommand);
    assert |commands| == |lines|;
    var k := |lines| - 1;
    assert commands[k] == Trim(ToLower(lines[k]));
    EmptyCommandMatchesEverything(settings, reddit, body);
  }

  predicate PostFlairIgnored(settings: AppSettings, post: EventPost) {
    IsSet(settings.postFlairTextToIgnore) && post.linkFlairText.Some?
    && ToLower(post.linkFlairText.value) in NameList(settings.postFlairTextToIgnore.value)
  }

  /** The dedup key for one actor thanking one comment. */
  function MarkerKey(parentId: string, actorName: string): string {
    "thanks-" + parentId + "-" + actorName
  }

  /** A key that `redis.get` still returns: written and not yet expired. */
  predicate MarkerLive(markers: map<string, int>, key: string, now: int) {
    key in markers && now < markers[key]
  }

  /** Why an event was dropped without any effect. */
  datatype Guard =
    | MalformedEvent | TopLevelComment | BotActor | NoCommand | IgnoredPostFlair
    | NotOriginalPoster | NotModOrSuperuser | ActorCannotAward | ParentNotFound
    | BotRecipient | ExcludedRecipient | AlreadyThanked | RecipientUnresolved

  datatype Verdict =
    | Rejected(guard: Guard)
    | SelfAward(actor: string, commentId: string, parent: RedditComment)
    | Award(actor: string, commentId: string, postId: string, parent: RedditComment, score: ScoreResult)

  /**
   * The permission step: a standard command from someone other than the
   * poster needs anyone-can-award; only when that branch does not apply does
   * a mod command need a moderator or superuser (`privileged`). The two
   * rejections are exclusive.
   */
  function PermissionCheck(nonOpUserCommand: bool, anyoneCanAwardPoints: bool, containsModCommand: bool, privileged: bool): (r: Option<Guard>)
    ensures r == Some(NotOriginalPoster) <==> nonOpUserCommand && !anyoneCanAwardPoints
    ensures r == Some(NotModOrSuperuser) <==> !nonOpUserCommand && containsModCommand && !privileged
    ensures r == None || r == Some(NotOriginalPoster) || r == Some(NotModOrSuperuser)
  {
    if nonOpUserCommand then (if anyoneCanAwardPoints then None else Some(NotOriginalPoster))
    else if containsModCommand && !privileged then Some(NotModOrSuperuser)
    else None
  }

  /** The guard chain of `handleThanksEvent`, in the order the handler applies it. */
  function Evaluate(w: World, e: CommentEvent, settings: AppSettings, reddit: Reddit, now: int): (r: Verdict)
    ensures !r.Rejected? ==> e.comment.Some? && e.post.Some? && e.author.Some? && e.subredditName.Some?
    ensures !r.Rejected? ==> r.actor == e.author.value.name && r.commentId == e.comment.value.id
                             && e.comment.value.parentId in reddit.comments
                             && r.parent == reddit.comments[e.comment.value.parentId]
    ensures r.SelfAward? ==> r.parent.authorName == r.actor
    ensures r.Award? ==> r.parent.authorName != r.actor && r.parent.authorName in reddit.users
                         && r.postId == e.post.value.id
                         && r.score == GetCurrentScore(w, r.parent.authorName, settings)
                         && !MarkerLive(w.markers, MarkerKey(r.parent.id, r.actor), now)
  {
    if e.comment.None? || e.post.None? || e.author.None? || e.subredditName.None? then Rejected(MalformedEvent)
    else
      var comment, post, author := e.comment.value, e.post.value, e.author.value;
      if IsLinkId(comment.parentId) then Rejected(TopLevelComment)
      else if author.name == reddit.appName || author.name == AUTOMODERATOR then Rejected(BotActor)
      else
        var containsUserCommand := ContainsUserCommand(settings, reddit, comment.body);
        var containsModCommand := ContainsModCommand(settings, comment.body);
        if !containsUserCommand && !containsModCommand then Rejected(NoCommand)
        else if PostFlairIgnored(settings, post) then Rejected(IgnoredPostFlair)
        else if PermissionCheck(containsUserCommand && author.id != post.authorId, settings.anyoneCanAwardPoints, containsModCommand,
                                author.name in reddit.moderators || IsSuperuser(w, reddit, settings, author.name)).Some?
        then Rejected(PermissionCheck(containsUserCommand && author.id != post.authorId, settings.anyoneCanAwardPoints, containsModCommand,
                                      author.name in reddit.moderators || IsSuperuser(w, reddit, settings, author.name)).value)
        else if Listed(settings.usersWhoCannotAwardPoints, author.name) then Rejected(ActorCannotAward)
        else if comment.parentId !in reddit.comments then Rejected(ParentNotFound)
        else
          var parent := reddit.comments[comment.parentId];
          if parent.authorName == reddit.appName || parent.authorName == AUTOMODERATOR then Rejected(BotRecipient)
          else if parent.authorName == author.name then SelfAward(author.name, comment.id, parent)
          else if Listed(settings.usersWhoCannotBeAwardedPoints, parent.authorName) then Rejected(ExcludedRecipient)
          else if MarkerLive(w.markers, MarkerKey(parent.id, author.name), now) then Rejected(AlreadyThanked)
          else if parent.authorName !in reddit.users then Rejected(RecipientUnresolved)
          else Award(author.name, comment.id, post.id, parent, GetCurrentScore(w, parent.authorName, settings))
  }

  // ---------------------------------------------------------------------
  // Notifications

  /** The placeholders the reply templates may hold, and the subject of a private reply. */
  const AUTHOR_NAME_PLACEHOLDER := "{{authorname}}"
  const AWARDEE_PLACEHOLDER := "{{awardeeusername}}"
  const PERMALINK_PLACEHOLDER := "{{permalink}}"
  const SCORE_PLACEHOLDER := "{{score}}"
  const THRESHOLD_PLACEHOLDER := "{{threshold}}"
  const POINTS_COMMAND_PLACEHOLDER := "{{pointscommand}}"
  const PM_SUBJECT_PREFIX := "Message from ReputatorBot on "

  /** `replyToUser`: nothing, a private message to the user, or a public reply under the comment. */
  function Replies(reddit: Reddit, mode: ReplyOptions, toUserName: string, body: string, commentId: string): (r: seq<Notice>)
    ensures mode == NoReply <==> r == []
    ensures mode == ReplyByPM ==> r == [PrivateMessage(toUserName, PM_SUBJECT_PREFIX + reddit.subredditName, body)]
    ensures mode == ReplyAsComment ==> r == [PublicReply(commentId, body)]
  {
    match mode
    case NoReply => []
    case ReplyByPM => [PrivateMessage(toUserName, PM_SUBJECT_PREFIX + reddit.subredditName, body)]
    case ReplyAsComment => [PublicReply(commentId, body)]
  }

  function ErrorMessage(settings: AppSettings, defaults: TemplateDefaults, reddit: Reddit, actor: string, parent: RedditComment): string {
    var message := settings.notifyOnErrorTemplate.GetOr(defaults.notifyOnError);
    ReplaceAll(ReplaceAll(message, AUTHOR_NAME_PLACEHOLDER, reddit.markdownEscape(actor)), PERMALINK_PLACEHOLDER, parent.permalink)
  }

  function SuperuserMessage(settings: AppSettings, defaults: TemplateDefaults, parent: RedditComment, threshold: int): string
    requires settings.modThanksCommand.Some?
  {
    var message := settings.notifyOnAutoSuperuserTemplate.GetOr(defaults.notifyOnSuperuser);
    var m1 := ReplaceAll(message, AUTHOR_NAME_PLACEHOLDER, parent.authorName);
    var m2 := ReplaceAll(m1, PERMALINK_PLACEHOLDER, parent.permalink);
    var m3 := ReplaceAll(m2, THRESHOLD_PLACEHOLDER, IntToString(threshold));
    ReplaceAll(m3, POINTS_COMMAND_PLACEHOLDER, settings.modThanksCommand.value)
  }

  /** The body shared by the success and awarded-user messages. */
  function AwardMessage(template: string, reddit: Reddit, actor: string, parent: RedditComment, newScore: int): string {
    var m1 := ReplaceAll(template, AUTHOR_NAME_PLACEHOLDER, reddit.markdownEscape(actor));
    var m2 := ReplaceAll(m1, AWARDEE_PLACEHOLDER, reddit.markdownEscape(parent.authorName));
    var m3 := ReplaceAll(m2, PERMALINK_PLACEHOLDER, parent.permalink);
    ReplaceAll(m3, SCORE_PLACEHOLDER, IntToString(newScore))
  }

  /** The auto-superuser notice: only when the new score equals a non-zero threshold and a mod command is set. */
  function SuperuserNotices(settings: AppSettings, defaults: TemplateDefaults, reddit: Reddit, parent: RedditComment, newScore: int): seq<Notice> {
    var threshold := settings.autoSuperuserThreshold.GetOr(0);
    var mode := settings.notifyOnAutoSuperuser.GetOr(NoReply);
    if threshold != 0 && IsSet(settings.modThanksCommand) && newScore == threshold && mode != NoReply
    then Replies(reddit, mode, parent.authorName, SuperuserMessage(settings, defaults, parent, threshold), parent.id)
    else []
  }

  /** The awarded-user notice as written: addressed to the actor's name. */
  function AwardedUserNoticesAsWritten(settings: AppSettings, defaults: TemplateDefaults, reddit: Reddit, actor: string, parent: RedditComment, newScore: int): seq<Notice>
    requires settings.notifyAwardedUser.Some?
  {
    var message := AwardMessage(settings.notifyAwardedUserTemplate.GetOr(defaults.notifyAwardedUser), reddit, actor, parent, newScore);
    Replies(reddit, settings.notifyAwardedUser.value, actor, message, parent.id)
  }

  /** The awarded-user notice addressed to the user who gained the point. */
  function AwardedUserNotices(settings: AppSettings, defaults: TemplateDefaults, reddit: Reddit, actor: string, parent: RedditComment, newScore: int): seq<Notice>
    requires settings.notifyAwardedUser.Some?
  {
    var message := AwardMessage(settings.notifyAwardedUserTemplate.GetOr(defaults.notifyAwardedUser), reddit, actor, parent, newScore);
    Replies(reddit, settings.notifyAwardedUser.value, parent.authorName, message, parent.id)
  }

  /** With private messages chosen, the notice as written goes to the actor and never to the user who gained the point. */
  lemma AwardedUserNoticeAsWrittenMissesAwardee(settings: AppSettings, defaults: TemplateDefaults, reddit: Reddit, actor: string, parent: RedditComment, newScore: int)
    requires settings.notifyAwardedUser == Some(ReplyByPM)
    requires parent.authorName != actor
    ensures var n := AwardedUserNoticesAsWritten(settings, defaults, reddit, actor, parent, newScore);
            |n| == 1 && n[0].PrivateMessage? && n[0].to == actor && n[0].to != parent.authorName
  {
  }

  /** The corrected notice reaches the user who gained the point, with the same text. */
  lemma AwardedUserNoticeReachesAwardee(settings: AppSettings, defaults: TemplateDefaults, reddit: Reddit, actor: string, parent: RedditComment, newScore: int)
    requires settings.notifyAwardedUser == Some(ReplyByPM)
    ensures var n := AwardedUserNotices(settings, defaults, reddit, actor, parent, newScore);
            var w := AwardedUserNoticesAsWritten(settings, defaults, reddit, actor, parent, newScore);
            |n| == 1 && n[0].PrivateMessage? && n[0].to == parent.authorName && n[0].text == w[0].text
  {
  }

  // ---------------------------------------------------------------------
  // setUserScore

  /** The badge decision table: never with never-set; otherwise when the badge was numeric, or always with overwrite-all. */
  predicate ShouldSetUserFlair(handling: Option<ExistingFlairOverwriteHandling>, flairScoreIsNaN: bool) {
    var mode := handling.GetOr(DEFAULT_FLAIR_HANDLING);
    mode != NeverSet && (!flairScoreIsNaN || mode == OverwriteAll)
  }

  lemma ShouldSetUserFlairTable(handling: Option<ExistingFlairOverwriteHandling>, flairScoreIsNaN: bool)
    ensures handling == Some(NeverSet) ==> !ShouldSetUserFlair(handling, flairScoreIsNaN)
    ensures handling == Some(OverwriteAll) ==> ShouldSetUserFlair(handling, flairScoreIsNaN)
    ensures handling != Some(NeverSet) && !flairScoreIsNaN ==> ShouldSetUserFlair(handling, flairScoreIsNaN)
    ensures handling != Some(OverwriteAll) && flairScoreIsNaN ==> !ShouldSetUserFlair(handling, flairScoreIsNaN)
  {
  }

  /** The badge written for a score: its text, and a template or a CSS class but never both. */
  function ScoreFlair(settings: AppSettings, newScore: int): (r: UserFlair)
    ensures r.text == IntToString(newScore)
    ensures r.cssClass.Some? ==> r.templateId.None? && IsSet(settings.cssClass) && r.cssClass == settings.cssClass
    ensures r.templateId.Some? <==> IsSet(settings.flairTemplate)
    ensures r.templateId.Some? ==> r.templateId == settings.flairTemplate
    ensures IsSet(settings.cssClass) && !IsSet(settings.flairTemplate) ==> r.cssClass == settings.cssClass
  {
    var template := if IsSet(settings.flairTemplate) then settings.flairTemplate else None;
    var cssClass := if IsSet(settings.cssClass) && template.None? then settings.cssClass else None;
    UserFlair(IntToString(newScore), cssClass, template)
  }

  function ScoreReason(username: string, newScore: int): string {
    "Awarded a point to " + username + ". New score: " + IntToString(newScore)
  }

  /** `setUserScore`: ledger, next check in 28 days, a leaderboard refresh, and the badge when the table allows it. */
  function SetUserScoreSpec(w: World, username: string, newScore: int, flairScoreIsNaN: bool, settings: AppSettings, now: int): World {
    var flairs := if ShouldSetUserFlair(settings.existingFlairHandling, flairScoreIsNaN)
                  then w.userFlairs[username := ScoreFlair(settings, newScore)] else w.userFlairs;
    w.(points := w.points[username := newScore],
       cleanupLog := CleanupTasks.ScheduledChecks(w.cleanupLog, [username], now),
       jobs := w.jobs + [UpdateLeaderboardJob(now, ScoreReason(username, newScore))],
       userFlairs := flairs)
  }

  /** Setting a score writes at most the badge of that one user. */
  lemma SetUserScoreFlairsFrame(w: World, username: string, newScore: int, flairScoreIsNaN: bool, settings: AppSettings, now: int)
    ensures var flairs := SetUserScoreSpec(w, username, newScore, flairScoreIsNaN, settings, now).userFlairs;
            && (forall u :: u != username && u in w.userFlairs ==> u in flairs && flairs[u] == w.userFlairs[u])
            && flairs.Keys <= w.userFlairs.Keys + {username}
  {
  }

  // ---------------------------------------------------------------------
  // handleThanksEvent

  /** The post flair written after an award, if the settings ask for one. */
  function AwardPostFlair(settings: AppSettings): (r: Option<PostFlair>)
    ensures r.Some? <==> settings.setPostFlairOnThanks == Some(true)
                         && (IsSet(settings.setPostFlairText) || IsSet(settings.setPostFlairTemplate))
    ensures r.Some? ==> r.value.text.Some? || r.value.templateId.Some?
    // An empty text or template setting counts as not set.
    ensures r.Some? ==> (r.value.text.Some? <==> IsSet(settings.setPostFlairText))
                        && (r.value.text.Some? ==> r.value.text == settings.setPostFlairText)
    ensures r.Some? ==> (r.value.templateId.Some? <==> IsSet(settings.setPostFlairTemplate))
                        && (r.value.templateId.Some? ==> r.value.templateId == settings.setPostFlairTemplate)
    // A template wins over a CSS class.
    ensures r.Some? ==> (r.value.cssClass.Some? <==> IsSet(settings.setPostFlairCSSClass) && !IsSet(settings.setPostFlairTemplate))
                        && (r.value.cssClass.Some? ==> r.value.cssClass == settings.setPostFlairCSSClass)
    ensures r.Some? ==> !(r.value.cssClass.Some? && r.value.templateId.Some?)
  {
    if !settings.setPostFlairOnThanks.GetOr(false) then None
    else
      var text := if IsSet(settings.setPostFlairText) then settings.setPostFlairText else None;
      var cssClass := if !IsSet(settings.setPostFlairCSSClass) || IsSet(settings.setPostFlairTemplate) then None else settings.setPostFlairCSSClass;
      var template := if IsSet(settings.setPostFlairTemplate) then settings.setPostFlairTemplate else None;
      if text.Some? || template.Some? then Some(PostFlair(text, cssClass, template)) else None
  }

  function WithPostFlair(w: World, settings: AppSettings, postId: string): World {
    var flair := AwardPostFlair(settings);
    if flair.Some? then w.(postFlairs := w.postFlairs[postId := flair.value]) else w
  }

  /**
   * The success and awarded-user replies, as written: the awarded-user
   * notice is addressed to the actor. A missing reply setting makes the
   * handler throw at that point.
   */
  function AwardReplies(w: World, settings: AppSettings, defaults: TemplateDefaults, reddit: Reddit, actor: string, commentId: string,
                        parent: RedditComment, newScore: int): World {
    if settings.notifyOnSuccess.None? then w
    else
      var success := AwardMessage(settings.notifyOnSuccessTemplate.GetOr(defaults.notifyOnSuccess), reddit, actor, parent, newScore);
      var w1 := w.(outbox := w.outbox + Replies(reddit, settings.notifyOnSuccess.value, actor, success, commentId));
      if settings.notifyAwardedUser.None? then w1
      else w1.(outbox := w1.outbox + AwardedUserNoticesAsWritten(settings, defaults, reddit, actor, parent, newScore))
  }

  /** The award's steps before the confirmations, in the handler's order: score, auto-superuser notice, post flair, marker. */
  function AwardBeforeReplies(w: World, settings: AppSettings, defaults: TemplateDefaults, reddit: Reddit, now: int,
                              actor: string, postId: string, parent: RedditComment, score: ScoreResult): World {
    var newScore := score.currentScore + 1;
    NoticeFlairAndMark(SetUserScoreSpec(w, parent.authorName, newScore, score.flairScoreIsNaN, settings, now),
                       SuperuserNotices(settings, defaults, reddit, parent, newScore), settings, postId,
                       MarkerKey(parent.id, actor), now + WEEK_MS)
  }

  /** The award's steps after the score: append the notices, set the post flair, write the dedup marker. */
  function NoticeFlairAndMark(w1: World, notices: seq<Notice>, settings: AppSettings, postId: string, marker: string, expiry: int): World {
    var w3 := WithPostFlair(w1.(outbox := w1.outbox + notices), settings, postId);
    w3.(markers := w3.markers[marker := expiry])
  }

  /** The effects of an award, in the handler's order. */
  function AwardSpec(w: World, settings: AppSettings, defaults: TemplateDefaults, reddit: Reddit, now: int,
                     actor: string, commentId: string, postId: string, parent: RedditComment, score: ScoreResult): World {
    AwardReplies(AwardBeforeReplies(w, settings, defaults, reddit, now, actor, postId, parent, score),
                 settings, defaults, reddit, actor, commentId, parent, score.currentScore + 1)
  }

  /** What one comment event does. */
  function ThanksSpec(w: World, e: CommentEvent, settings: AppSettings, defaults: TemplateDefaults, reddit: Reddit, now: int): World {
    match Evaluate(w, e, settings, reddit, now)
    case Rejected(_) => w
    case SelfAward(actor, commentId, parent) =>
      var mode := settings.notifyOnError.GetOr(NoReply);
      w.(outbox := w.outbox + Replies(reddit, mode, actor, ErrorMessage(settings, defaults, reddit, actor, parent), commentId))
    case Award(actor, commentId, postId, parent, score) =>
      AwardSpec(w, settings, defaults, reddit, now, actor, commentId, postId, parent, score)
  }

  /** `replyToUser`. */
  method ReplyToUser(ctx: Context, reddit: Reddit, mode: ReplyOptions, toUserName: string, messageBody: string, commentId: string)
    modifies ctx
    ensures ctx.State() == old(ctx.State()).(outbox := old(ctx.outbox) + Replies(reddit, mode, toUserName, messageBody, commentId))
  {
    if mode == NoReply {
      return;
    } else if mode == ReplyByPM {
      ctx.outbox := ctx.outbox + [PrivateMessage(toUserName, PM_SUBJECT_PREFIX + reddit.subredditName, messageBody)];
    } else {
      ctx.outbox := ctx.outbox + [PublicReply(commentId, messageBody)];
    }
  }

  /** `setUserScore`. */
  method SetUserScore(ctx: Context, username: string, newScore: int, flairScoreIsNaN: bool, settings: AppSettings, now: int)
    modifies ctx
    ensures ctx.State() == SetUserScoreSpec(old(ctx.State()), username, newScore, flairScoreIsNaN, settings, now)
  {
    ctx.points := ZAdd(ctx.points, [ZMember(username, newScore)]);
    assert ctx.points == old(ctx.points)[username := newScore] by {
      ZAddLastWins(old(ctx.points), [ZMember(username, newScore)], username);
    }
    CleanupTasks.SetCleanupForUsers(ctx, [username], now);
    ctx.jobs := ctx.jobs + [UpdateLeaderboardJob(now, ScoreReason(username, newScore))];

    var existingFlairOverwriteHandling := settings.existingFlairHandling.GetOr(DEFAULT_FLAIR_HANDLING);
    var shouldSetUserFlair := existingFlairOverwriteHandling != NeverSet
                              && (!flairScoreIsNaN || existingFlairOverwriteHandling == OverwriteAll);
    if shouldSetUserFlair {
      var cssClass := settings.cssClass;
      if !IsSet(cssClass) {
        cssClass := None;
      }
      var flairTemplate := settings.flairTemplate;
      if !IsSet(flairTemplate) {
        flairTemplate := None;
      }
      if flairTemplate.Some? && cssClass.Some? {
        cssClass := None;
      }
      ctx.userFlairs := ctx.userFlairs[username := UserFlair(IntToString(newScore), cssClass, flairTemplate)];
    }
  }

  /** The guard chain of `handleThanksEvent`: everything it reads before its first write. */
  method CheckGuards(ctx: Context, e: CommentEvent, settings: AppSettings, reddit: Reddit, now: int) returns (verdict: Verdict)
    ensures verdict == Evaluate(ctx.State(), e, settings, reddit, now)
  {
    if e.comment.None? || e.post.None? || e.author.None? || e.subredditName.None? {
      return Rejected(MalformedEvent);
    }
    var comment, post, author := e.comment.value, e.post.value, e.author.value;
    if IsLinkId(comment.parentId) {
      return Rejected(TopLevelComment);
    }
    if author.name == reddit.appName || author.name == AUTOMODERATOR {
      return Rejected(BotActor);
    }
    var containsUserCommand := ContainsUserCommand(settings, reddit, comment.body);
    var containsModCommand := ContainsModCommand(settings, comment.body);
    if !containsUserCommand && !containsModCommand {
      return Rejected(NoCommand);
    }
    if PostFlairIgnored(settings, post) {
      return Rejected(IgnoredPostFlair);
    }
    var isMod := author.name in reddit.moderators;
    if containsUserCommand && author.id != post.authorId {
      if !settings.anyoneCanAwardPoints {
        return Rejected(NotOriginalPoster);
      }
    } else if containsModCommand {
      var userIsSuperuser := IsSuperuser(ctx.State(), reddit, settings, author.name);
      if !isMod && !userIsSuperuser {
        return Rejected(NotModOrSuperuser);
      }
    }
    if Listed(settings.usersWhoCannotAwardPoints, author.name) {
      return Rejected(ActorCannotAward);
    }
    if comment.parentId !in reddit.comments {
      // `getCommentById` throws.
      return Rejected(ParentNotFound);
    }
    var parentComment := reddit.comments[comment.parentId];
    if parentComment.authorName == reddit.appName || parentComment.authorName == AUTOMODERATOR {
      return Rejected(BotRecipient);
    } else if parentComment.authorName == author.name {
      return SelfAward(author.name, comment.id, parentComment);
    } else if Listed(settings.usersWhoCannotBeAwardedPoints, parentComment.authorName) {
      return Rejected(ExcludedRecipient);
    }
    var redisKey := MarkerKey(parentComment.id, author.name);
    if MarkerLive(ctx.markers, redisKey, now) {
      return Rejected(AlreadyThanked);
    }
    if parentComment.authorName !in reddit.users {
      // `getAuthor` finds no account.
      return Rejected(RecipientUnresolved);
    }
    var score := GetCurrentScore(ctx.State(), parentComment.authorName, settings);
    return Award(author.name, comment.id, post.id, parentComment, score);
  }

  /** `handleThanksEvent`: the guard chain, then the self-award reply or the award. */
  method HandleThanksEvent(ctx: Context, e: CommentEvent, settings: AppSettings, defaults: TemplateDefaults, reddit: Reddit, now: int)
    modifies ctx
    ensures ctx.State() == ThanksSpec(old(ctx.State()), e, settings, defaults, reddit, now)
  {
    var verdict := CheckGuards(ctx, e, settings, reddit, now);
    match verdict
    case Rejected(_) =>
    case SelfAward(actor, commentId, parentComment) =>
      var notifyOnError := settings.notifyOnError.GetOr(NoReply);
      if notifyOnError != NoReply {
        var message := settings.notifyOnErrorTemplate.GetOr(defaults.notifyOnError);
        message := ReplaceAll(message, AUTHOR_NAME_PLACEHOLDER, reddit.markdownEscape(actor));
        message := ReplaceAll(message, PERMALINK_PLACEHOLDER, parentComment.permalink);
        ReplyToUser(ctx, reddit, notifyOnError, actor, message, commentId);
      }
    case Award(actor, commentId, postId, parentComment, score) =>
      AwardPoint(ctx, settings, defaults, reddit, now, actor, commentId, postId, parentComment, score);
  }

  /** The part of `handleThanksEvent` after every guard has passed. */
  method AwardPoint(ctx: Context, settings: AppSettings, defaults: TemplateDefaults, reddit: Reddit, now: int,
                    actor: string, commentId: string, postId: string, parentComment: RedditComment, score: ScoreResult)
    modifies ctx
    ensures ctx.State() == AwardSpec(old(ctx.State()), settings, defaults, reddit, now, actor, commentId, postId, parentComment, score)
  {
    ghost var w := ctx.State();
    var newScore := score.currentScore + 1;
    SetUserScore(ctx, parentComment.authorName, newScore, score.flairScoreIsNaN, settings, now);

    NotifyAutoSuperuser(ctx, settings, defaults, reddit, parentComment, newScore);
    SetAwardPostFlair(ctx, settings, postId);
    ctx.markers := ctx.markers[MarkerKey(parentComment.id, actor) := now + WEEK_MS];
    assert ctx.State() == AwardBeforeReplies(w, settings, defaults, reddit, now, actor, postId, parentComment, score);
    SendAwardReplies(ctx, settings, defaults, reddit, actor, commentId, parentComment, newScore);
  }

  /** The auto-superuser notice step of `handleThanksEvent`. */
  method NotifyAutoSuperuser(ctx: Context, settings: AppSettings, defaults: TemplateDefaults, reddit: Reddit, parentComment: RedditComment, newScore: int)
    modifies ctx
    ensures ctx.State() == old(ctx.State()).(outbox := old(ctx.outbox) + SuperuserNotices(settings, defaults, reddit, parentComment, newScore))
  {
    var autoSuperuserThreshold := settings.autoSuperuserThreshold.GetOr(0);
    var notifyOnAutoSuperuser := settings.notifyOnAutoSuperuser.GetOr(NoReply);
    if autoSuperuserThreshold != 0 && IsSet(settings.modThanksCommand) && newScore == autoSuperuserThreshold
       && notifyOnAutoSuperuser != NoReply {
      var message := settings.notifyOnAutoSuperuserTemplate.GetOr(defaults.notifyOnSuperuser);
      message := ReplaceAll(message, AUTHOR_NAME_PLACEHOLDER, parentComment.authorName);
      message := ReplaceAll(message, PERMALINK_PLACEHOLDER, parentComment.permalink);
      message := ReplaceAll(message, THRESHOLD_PLACEHOLDER, IntToString(autoSuperuserThreshold));
      message := ReplaceAll(message, POINTS_COMMAND_PLACEHOLDER, settings.modThanksCommand.value);
      ReplyToUser(ctx, reddit, notifyOnAutoSuperuser, parentComment.authorName, message, parentComment.id);
    }
  }

  /** The post flair step of `handleThanksEvent`. */
  method SetAwardPostFlair(ctx: Context, settings: AppSettings, postId: string)
    modifies ctx
    ensures ctx.State() == WithPostFlair(old(ctx.State()), settings, postId)
  {
    if settings.setPostFlairOnThanks.GetOr(false) {
      var postFlairText := settings.setPostFlairText;
      var postFlairCSSClass := settings.setPostFlairCSSClass;
      var postFlairTemplate := settings.setPostFlairTemplate;
      if !IsSet(postFlairText) {
        postFlairText := None;
      }
      if !IsSet(postFlairCSSClass) || IsSet(postFlairTemplate) {
        postFlairCSSClass := None;
      }
      if !IsSet(postFlairTemplate) {
        postFlairTemplate := None;
      }
      if postFlairText.Some? || postFlairTemplate.Some? {
        ctx.postFlairs := ctx.postFlairs[postId := PostFlair(postFlairText, postFlairCSSClass, postFlairTemplate)];
      }
    }
  }

  /** The two replies that close `handleThanksEvent`. */
  method SendAwardReplies(ctx: Context, settings: AppSettings, defaults: TemplateDefaults, reddit: Reddit, actor: string, commentId: string,
                          parentComment: RedditComment, newScore: int)
    modifies ctx
    ensures ctx.State() == AwardReplies(old(ctx.State()), settings, defaults, reddit, actor, commentId, parentComment, newScore)
  {
    if settings.notifyOnSuccess.None? {
      // Reading the first element of an undefined setting throws.
      return;
    }
    var notifyOnSuccess := settings.notifyOnSuccess.value;
    if notifyOnSuccess != NoReply {
      var message := settings.notifyOnSuccessTemplate.GetOr(defaults.notifyOnSuccess);
      message := ReplaceAll(message, AUTHOR_NAME_PLACEHOLDER, reddit.markdownEscape(actor));
      message := ReplaceAll(message, AWARDEE_PLACEHOLDER, reddit.markdownEscape(parentComment.authorName));
      message := ReplaceAll(message, PERMALINK_PLACEHOLDER, parentComment.permalink);
      message := ReplaceAll(message, SCORE_PLACEHOLDER, IntToString(newScore));
      ReplyToUser(ctx, reddit, notifyOnSuccess, actor, message, commentId);
    }

    if settings.notifyAwardedUser.None? {
      return;
    }
    var notifyAwardedUser := settings.notifyAwardedUser.value;
    if notifyAwardedUser != NoReply {
      var message := settings.notifyAwardedUserTemplate.GetOr(defaults.notifyAwardedUser);
      message := ReplaceAll(message, AUTHOR_NAME_PLACEHOLDER, reddit.markdownEscape(actor));
      message := ReplaceAll(message, AWARDEE_PLACEHOLDER, reddit.markdownEscape(parentComment.authorName));
      message := ReplaceAll(message, PERMALINK_PLACEHOLDER, parentComment.permalink);
      message := ReplaceAll(message, SCORE_PLACEHOLDER, IntToString(newScore));
      // As written, the private-message form goes to the actor (see `AwardedUserNoticesAsWritten`).
      ReplyToUser(ctx, reddit, notifyAwardedUser, actor, message, parentComment.id);
    }
  }

  // ---------------------------------------------------------------------
  // manualSetPointsFormHandler

  datatype ManualSetOutcome = ManualSetOutcome(world: World, toast: Option<string>)

  /**
   * The manual score form: no comment in context, or a zero or missing
   * score, only shows a toast; a comment that cannot be found throws; an
   * author that does not resolve gets a toast; otherwise the entered score is
   * written through `setUserScore`.
   */
  function ManualSetSpec(w: World, commentId: Option<string>, newScore: Option<int>, settings: AppSettings,
                         reddit: Reddit, now: int): ManualSetOutcome {
    if !IsSet(commentId) then ManualSetOutcome(w, Some("An error occurred setting the user's score."))
    else if newScore.None? || newScore.value == 0 then ManualSetOutcome(w, Some("You must enter a new score"))
    else if commentId.value !in reddit.comments then ManualSetOutcome(w, None)
    else
      var comment := reddit.comments[commentId.value];
      if comment.authorName !in reddit.users then ManualSetOutcome(w, Some("Cannot set points. User may be shadowbanned."))
      else
        var flairScoreIsNaN := GetCurrentScore(w, comment.authorName, settings).flairScoreIsNaN;
        ManualSetOutcome(SetUserScoreSpec(w, comment.authorName, newScore.value, flairScoreIsNaN, settings, now),
                         Some("Score for " + comment.authorName + " is now " + IntToString(newScore.value)))
  }

  /** `manualSetPointsFormHandler`; `commentId` is the form's context and `newScore` its field. */
  method ManualSetPointsFormHandler(ctx: Context, commentId: Option<string>, newScore: Option<int>, settings: AppSettings,
                                    reddit: Reddit, now: int) returns (toast: Option<string>)
    modifies ctx
    ensures ctx.State() == ManualSetSpec(old(ctx.State()), commentId, newScore, settings, reddit, now).world
    ensures toast == ManualSetSpec(old(ctx.State()), commentId, newScore, settings, reddit, now).toast
  {
    if !IsSet(commentId) {
      return Some("An error occurred setting the user's score.");
    }
    if newScore.None? || newScore.value == 0 {
      return Some("You must enter a new score");
    }
    if commentId.value !in reddit.comments {
      // `getCommentById` throws.
      return None;
    }
    var comment := reddit.comments[commentId.value];
    if comment.authorName !in reddit.users {
      return Some("Cannot set points. User may be shadowbanned.");
    }
    var score := GetCurrentScore(ctx.State(), comment.authorName, settings);
    SetUserScore(ctx, comment.authorName, newScore.value, score.flairScoreIsNaN, settings, now);
    toast := Some("Score for " + comment.authorName + " is now " + IntToString(newScore.value));
  }

  /** A zero or missing score is refused and nothing changes. */
  lemma ManualSetRejectsZero(w: World, commentId: Option<string>, newScore: Option<int>, settings: AppSettings, reddit: Reddit, now: int)
    requires newScore.None? || newScore == Some(0)
    ensures ManualSetSpec(w, commentId, newScore, settings, reddit, now).world == w
    ensures ManualSetSpec(w, commentId, newScore, settings, reddit, now).toast.Some?
  {
  }

  /** An accepted manual score is stored exactly as entered, whatever the badge or ledger said before. */
  lemma ManualSetStoresEnteredScore(w: World, commentId: string, score: int, settings: AppSettings, reddit: Reddit, now: int)
    requires commentId != [] && score != 0
    requires commentId in reddit.comments && reddit.comments[commentId].authorName in reddit.users
    ensures var author := reddit.comments[commentId].authorName;
            var after := ManualSetSpec(w, Some(commentId), Some(score), settings, reddit, now).world;
            && after.points == w.points[author := score]
            && after.cleanupLog == w.cleanupLog[author := now + CleanupTasks.CHECK_INTERVAL_MS]
            && after.markers == w.markers
  {
    var author := reddit.comments[commentId].authorName;
    assert CleanupTasks.ScheduledChecks(w.cleanupLog, [author], now) == w.cleanupLog[author := now + CleanupTasks.CHECK_INTERVAL_MS];
  }

  // ---------------------------------------------------------------------
  // Properties of the comment handler

  /**
   * The events the guard chain turns away: a malformed event, a
   * top-level comment, the app or AutoModerator acting, no command, an ignored
   * post flair, a non-OP without permission, a mod command from someone who is
   * neither moderator nor superuser, an actor barred from awarding, a missing
   * parent, a bot or excluded recipient, a live dedup marker, or a recipient
   * that does not resolve.
   */
  predicate Guarded(w: World, e: CommentEvent, settings: AppSettings, reddit: Reddit, now: int) {
    || e.comment.None? || e.post.None? || e.author.None? || e.subredditName.None?
    || IsLinkId(e.comment.value.parentId)
    || e.author.value.name == reddit.appName || e.author.value.name == AUTOMODERATOR
    || (!ContainsUserCommand(settings, reddit, e.comment.value.body) && !ContainsModCommand(settings, e.comment.value.body))
    || PostFlairIgnored(settings, e.post.value)
    || (ContainsUserCommand(settings, reddit, e.comment.value.body) && e.author.value.id != e.post.value.authorId
        && !settings.anyoneCanAwardPoints)
    || (!(ContainsUserCommand(settings, reddit, e.comment.value.body) && e.author.value.id != e.post.value.authorId)
        && ContainsModCommand(settings, e.comment.value.body) && e.author.value.name !in reddit.moderators
        && !IsSuperuser(w, reddit, settings, e.author.value.name))
    || Listed(settings.usersWhoCannotAwardPoints, e.author.value.name)
    || e.comment.value.parentId !in reddit.comments
    || (var parent := reddit.comments[e.comment.value.parentId];
        || parent.authorName == reddit.appName || parent.authorName == AUTOMODERATOR
        || (parent.authorName != e.author.value.name
            && (|| Listed(settings.usersWhoCannotBeAwardedPoints, parent.authorName)
                || MarkerLive(w.markers, MarkerKey(parent.id, e.author.value.name), now)
                || parent.authorName !in reddit.users)))
  }

  /** A guarded event is rejected by the guard chain. */
  lemma GuardedEventsRejected(w: World, e: CommentEvent, settings: AppSettings, reddit: Reddit, now: int)
    requires Guarded(w, e, settings, reddit, now)
    ensures Evaluate(w, e, settings, reddit, now).Rejected?
  {
    if e.comment.Some? && e.post.Some? && e.author.Some? && e.subredditName.Some? {
      var comment, post, author := e.comment.value, e.post.value, e.author.value;
      var nonOp := ContainsUserCommand(settings, reddit, comment.body) && author.id != post.authorId;
      var containsModCommand := ContainsModCommand(settings, comment.body);
      var privileged := author.name in reddit.moderators || IsSuperuser(w, reddit, settings, author.name);
      if nonOp && !settings.anyoneCanAwardPoints {
        assert PermissionCheck(nonOp, settings.anyoneCanAwardPoints, containsModCommand, privileged).Some?;
      } else if !nonOp && containsModCommand && !privileged {
        assert PermissionCheck(nonOp, settings.anyoneCanAwardPoints, containsModCommand, privileged).Some?;
      }
    }
  }

  /** A guarded event leaves the world as it was. */
  lemma GuardedEventsChangeNothing(w: World, e: CommentEvent, settings: AppSettings, defaults: TemplateDefaults, reddit: Reddit, now: int)
    requires Guarded(w, e, settings, reddit, now)
    ensures ThanksSpec(w, e, settings, defaults, reddit, now) == w
  {
    GuardedEventsRejected(w, e, settings, reddit, now);
  }

  /** Thanking one's own comment changes nothing but the outbox, whatever else holds. */
  lemma SelfAwardChangesOnlyOutbox(w: World, e: CommentEvent, settings: AppSettings, defaults: TemplateDefaults, reddit: Reddit, now: int)
    requires e.comment.Some? && e.author.Some?
    requires e.comment.value.parentId in reddit.comments
    requires reddit.comments[e.comment.value.parentId].authorName == e.author.value.name
    ensures var after := ThanksSpec(w, e, settings, defaults, reddit, now);
            after.(outbox := w.outbox) == w && w.outbox <= after.outbox
  {
  }

  /** Setting the post flair touches post flairs only. */
  lemma WithPostFlairTouchesPostFlairsOnly(w: World, settings: AppSettings, postId: string)
    ensures WithPostFlair(w, settings, postId).(postFlairs := w.postFlairs) == w
  {
  }

  /** The award confirmations only append to the outbox. */
  lemma AwardRepliesOnlyAppend(w: World, settings: AppSettings, defaults: TemplateDefaults, reddit: Reddit, actor: string, commentId: string,
                               parent: RedditComment, newScore: int)
    ensures var after := AwardReplies(w, settings, defaults, reddit, actor, commentId, parent, newScore);
            after.(outbox := w.outbox) == w && w.outbox <= after.outbox
  {
    if settings.notifyOnSuccess.Some? {
      var success := AwardMessage(settings.notifyOnSuccessTemplate.GetOr(defaults.notifyOnSuccess), reddit, actor, parent, newScore);
      var sent := Replies(reddit, settings.notifyOnSuccess.value, actor, success, commentId);
      var w1 := w.(outbox := w.outbox + sent);
      if settings.notifyAwardedUser.Some? {
        var more := AwardedUserNoticesAsWritten(settings, defaults, reddit, actor, parent, newScore);
        assert AwardReplies(w, settings, defaults, reddit, actor, commentId, parent, newScore) == w.(outbox := w.outbox + sent + more);
      } else {
        assert AwardReplies(w, settings, defaults, reddit, actor, commentId, parent, newScore) == w1;
      }
    }
  }

  /**
   * As written, with only the awarded-user notice enabled and sent by
   * private message, the award's one message goes to the actor, not to the
   * user who gained the point.
   */
  lemma AwardRepliesMessageActor(w: World, settings: AppSettings, defaults: TemplateDefaults, reddit: Reddit, actor: string, commentId: string,
                                 parent: RedditComment, newScore: int)
    requires settings.notifyOnSuccess == Some(NoReply) && settings.notifyAwardedUser == Some(ReplyByPM)
    requires parent.authorName != actor
    ensures var after := AwardReplies(w, settings, defaults, reddit, actor, commentId, parent, newScore);
            |after.outbox| == |w.outbox| + 1
            && after.outbox[|w.outbox|].PrivateMessage?
            && after.outbox[|w.outbox|].to == actor != parent.authorName
  {
    AwardedUserNoticeAsWrittenMissesAwardee(settings, defaults, reddit, actor, parent, newScore);
  }

  /**
   * What an award does to the stores: the recipient's score becomes
   * `newScore`, their next check is 28 days from now, the dedup marker
   * expires in a week, no other user's badge changes, and jobs and notices
   * are only appended.
   */
  predicate AwardEffects(w: World, after: World, recipient: string, newScore: int, marker: string, now: int) {
    && after.points == w.points[recipient := newScore]
    && after.cleanupLog == w.cleanupLog[recipient := now + CleanupTasks.CHECK_INTERVAL_MS]
    && after.markers == w.markers[marker := now + WEEK_MS]
    && (forall u :: u != recipient && u in w.userFlairs ==> u in after.userFlairs && after.userFlairs[u] == w.userFlairs[u])
    && after.userFlairs.Keys <= w.userFlairs.Keys + {recipient}
    && w.jobs <= after.jobs && w.outbox <= after.outbox
  }

  /** Appending notices, setting the post flair and writing a marker touch nothing else. */
  lemma NoticeFlairAndMarkFrame(w1: World, notices: seq<Notice>, settings: AppSettings, postId: string, marker: string, expiry: int)
    ensures var b := NoticeFlairAndMark(w1, notices, settings, postId, marker, expiry);
            && b.points == w1.points && b.cleanupLog == w1.cleanupLog
            && b.userFlairs == w1.userFlairs && b.jobs == w1.jobs
            && b.markers == w1.markers[marker := expiry]
            && w1.outbox <= b.outbox
  {
    var w2 := w1.(outbox := w1.outbox + notices);
    WithPostFlairTouchesPostFlairsOnly(w2, settings, postId);
  }

  /** After the score is set, the award's remaining steps touch only post flairs, the marker and the outbox. */
  lemma AwardSpecAfterScore(w: World, settings: AppSettings, defaults: TemplateDefaults, reddit: Reddit, now: int,
                            actor: string, commentId: string, postId: string, parent: RedditComment, score: ScoreResult)
    ensures var after := AwardSpec(w, settings, defaults, reddit, now, actor, commentId, postId, parent, score);
            var w1 := SetUserScoreSpec(w, parent.authorName, score.currentScore + 1, score.flairScoreIsNaN, settings, now);
            && after.points == w1.points && after.cleanupLog == w1.cleanupLog
            && after.userFlairs == w1.userFlairs && after.jobs == w1.jobs
            && after.markers == w.markers[MarkerKey(parent.id, actor) := now + WEEK_MS]
            && w1.outbox <= after.outbox
  {
    var newScore := score.currentScore + 1;
    var w1 := SetUserScoreSpec(w, parent.authorName, newScore, score.flairScoreIsNaN, settings, now);
    var notices := SuperuserNotices(settings, defaults, reddit, parent, newScore);
    var marker := MarkerKey(parent.id, actor);
    var b := NoticeFlairAndMark(w1, notices, settings, postId, marker, now + WEEK_MS);
    assert AwardBeforeReplies(w, settings, defaults, reddit, now, actor, postId, parent, score) == b;
    var after := AwardSpec(w, settings, defaults, reddit, now, actor, commentId, postId, parent, score);
    assert after == AwardReplies(b, settings, defaults, reddit, actor, commentId, parent, newScore);
    NoticeFlairAndMarkFrame(w1, notices, settings, postId, marker, now + WEEK_MS);
    AwardRepliesOnlyAppend(b, settings, defaults, reddit, actor, commentId, parent, newScore);
    assert after.(outbox := b.outbox) == b;
    assert w1.markers == w.markers;
  }

  /** The store effects of the award path. */
  lemma AwardSpecStores(w: World, settings: AppSettings, defaults: TemplateDefaults, reddit: Reddit, now: int,
                        actor: string, commentId: string, postId: string, parent: RedditComment, score: ScoreResult)
    ensures var after := AwardSpec(w, settings, defaults, reddit, now, actor, commentId, postId, parent, score);
            var recipient := parent.authorName;
            && AwardEffects(w, after, recipient, score.currentScore + 1, MarkerKey(parent.id, actor), now)
            && after.userFlairs == SetUserScoreSpec(w, recipient, score.currentScore + 1, score.flairScoreIsNaN, settings, now).userFlairs
  {
    var recipient := parent.authorName;
    assert CleanupTasks.ScheduledChecks(w.cleanupLog, [recipient], now) == w.cleanupLog[recipient := now + CleanupTasks.CHECK_INTERVAL_MS];
    SetUserScoreFlairsFrame(w, recipient, score.currentScore + 1, score.flairScoreIsNaN, settings, now);
    AwardSpecAfterScore(w, settings, defaults, reddit, now, actor, commentId, postId, parent, score);
  }

  /** On the award path the handler's result is the award's. */
  lemma ThanksSpecOfAward(w: World, e: CommentEvent, settings: AppSettings, defaults: TemplateDefaults, reddit: Reddit, now: int)
    requires Evaluate(w, e, settings, reddit, now).Award?
    ensures var v := Evaluate(w, e, settings, reddit, now);
            ThanksSpec(w, e, settings, defaults, reddit, now) == AwardSpec(w, settings, defaults, reddit, now, v.actor, v.commentId, v.postId, v.parent, v.score)
  {
  }

  /**
   * An award sets the recipient's score to the reconciled score plus one,
   * their next check to 28 days from now and the dedup marker to expire in a
   * week; no other user's score, check or badge changes, and jobs and
   * notices are only appended.
   */
  lemma AwardUpdatesStores(w: World, e: CommentEvent, settings: AppSettings, defaults: TemplateDefaults, reddit: Reddit, now: int,
                            actor: string, commentId: string, postId: string, parent: RedditComment, score: ScoreResult)
    requires Evaluate(w, e, settings, reddit, now) == Award(actor, commentId, postId, parent, score)
    ensures score == GetCurrentScore(w, parent.authorName, settings)
    ensures AwardEffects(w, ThanksSpec(w, e, settings, defaults, reddit, now), parent.authorName,
                         score.currentScore + 1, MarkerKey(parent.id, actor), now)
  {
    var after := ThanksSpec(w, e, settings, defaults, reddit, now);
    var award := AwardSpec(w, settings, defaults, reddit, now, actor, commentId, postId, parent, score);
    assert after == award by { ThanksSpecOfAward(w, e, settings, defaults, reddit, now); }
    assert AwardEffects(w, award, parent.authorName, score.currentScore + 1, MarkerKey(parent.id, actor), now) by {
      AwardSpecStores(w, settings, defaults, reddit, now, actor, commentId, postId, parent, score);
    }
  }

  /** Unless the badge takes precedence, an award never leaves the recipient below their ledger score plus one. */
  lemma AwardNeverBelowLedger(w: World, e: CommentEvent, settings: AppSettings, defaults: TemplateDefaults, reddit: Reddit, now: int)
    requires Evaluate(w, e, settings, reddit, now).Award?
    requires !settings.prioritiseScoreFromFlair
    ensures var recipient := Evaluate(w, e, settings, reddit, now).parent.authorName;
            var after := ThanksSpec(w, e, settings, defaults, reddit, now);
            recipient in after.points && after.points[recipient] >= LedgerScore(w.points, recipient) + 1
  {
    var v := Evaluate(w, e, settings, reddit, now);
    AwardUpdatesStores(w, e, settings, defaults, reddit, now, v.actor, v.commentId, v.postId, v.parent, v.score);
  }

  /** Unless badges are never written, reading the recipient's score after an award gives the new score. */
  lemma AwardedScoreReadsBack(w: World, e: CommentEvent, settings: AppSettings, defaults: TemplateDefaults, reddit: Reddit, now: int)
    requires Evaluate(w, e, settings, reddit, now).Award?
    requires settings.existingFlairHandling != Some(NeverSet)
    ensures var v := Evaluate(w, e, settings, reddit, now);
            GetCurrentScore(ThanksSpec(w, e, settings, defaults, reddit, now), v.parent.authorName, settings).currentScore
            == v.score.currentScore + 1
  {
    var v := Evaluate(w, e, settings, reddit, now);
    var recipient := v.parent.authorName;
    var newScore := v.score.currentScore + 1;
    var after := ThanksSpec(w, e, settings, defaults, reddit, now);
    ThanksSpecOfAward(w, e, settings, defaults, reddit, now);
    AwardSpecStores(w, settings, defaults, reddit, now, v.actor, v.commentId, v.postId, v.parent, v.score);
    assert LedgerScore(after.points, recipient) == newScore;
    if ShouldSetUserFlair(settings.existingFlairHandling, v.score.flairScoreIsNaN) {
      assert after.userFlairs[recipient] == ScoreFlair(settings, newScore);
      FlairTextRoundTrip(newScore);
    } else {
      assert v.score.flairScoreIsNaN;
      assert after.userFlairs == w.userFlairs;
      assert FlairTextOf(after, recipient) == FlairTextOf(w, recipient);
    }
  }

  /** After an award, the same actor thanking the same comment again within the week changes nothing. */
  lemma RepeatWithinWeekChangesNothing(w: World, e: CommentEvent, settings: AppSettings, defaults: TemplateDefaults, reddit: Reddit, now: int,
                                       e2: CommentEvent, settings2: AppSettings, now2: int)
    requires Evaluate(w, e, settings, reddit, now).Award?
    requires e2.comment.Some? && e2.author.Some?
    requires e2.comment.value.parentId == e.comment.value.parentId && e2.author.value.name == e.author.value.name
    requires now2 < now + WEEK_MS
    ensures var after := ThanksSpec(w, e, settings, defaults, reddit, now);
            ThanksSpec(after, e2, settings2, defaults, reddit, now2) == after
  {
    var v := Evaluate(w, e, settings, reddit, now);
    AwardUpdatesStores(w, e, settings, defaults, reddit, now, v.actor, v.commentId, v.postId, v.parent, v.score);
  }

  lemma AwardSetsMarker(w: World, e: CommentEvent, settings: AppSettings, defaults: TemplateDefaults, reddit: Reddit, now: int)
    requires Evaluate(w, e, settings, reddit, now).Award?
    ensures var v := Evaluate(w, e, settings, reddit, now);
            var key := MarkerKey(v.parent.id, v.actor);
            var after := ThanksSpec(w, e, settings, defaults, reddit, now);
            key in after.markers && after.markers[key] == now + WEEK_MS
  {
    var v := Evaluate(w, e, settings, reddit, now);
    AwardUpdatesStores(w, e, settings, defaults, reddit, now, v.actor, v.commentId, v.postId, v.parent, v.score);
  }

  datatype TimedEvent = TimedEvent(event: CommentEvent, now: int)

  /** Handling a series of comment events in order. */
  function Replay(w: World, events: seq<TimedEvent>, settings: AppSettings, defaults: TemplateDefaults, reddit: Reddit): World
    decreases |events|
  {
    if events == [] then w
    else Replay(ThanksSpec(w, events[0].event, settings, defaults, reddit, events[0].now), events[1..], settings, defaults, reddit)
  }

  /** Every event in `events` is a reply to `parentId` by `actor`. */
  predicate RepeatsOf(events: seq<TimedEvent>, parentId: string, actor: string) {
    forall i :: 0 <= i < |events| ==>
      && events[i].event.comment.Some? && events[i].event.author.Some?
      && events[i].event.comment.value.parentId == parentId && events[i].event.author.value.name == actor
  }

  /** Every event in `events` happens before `expiry`. */
  predicate AllBefore(events: seq<TimedEvent>, expiry: int) {
    forall i :: 0 <= i < |events| ==> events[i].now < expiry
  }

  /** While the marker for a (comment, actor) pair is live, any number of repeats by that actor on that comment change nothing. */
  lemma {:induction false} LiveMarkerBlocksRepeats(w: World, events: seq<TimedEvent>, settings: AppSettings, defaults: TemplateDefaults, reddit: Reddit,
                                                   parentId: string, actor: string)
    requires parentId in reddit.comments && reddit.comments[parentId].authorName != actor
    requires MarkerKey(reddit.comments[parentId].id, actor) in w.markers
    requires AllBefore(events, w.markers[MarkerKey(reddit.comments[parentId].id, actor)])
    requires RepeatsOf(events, parentId, actor)
    ensures Replay(w, events, settings, defaults, reddit) == w
    decreases |events|
  {
    if events != [] {
      var ev := events[0];
      assert ThanksSpec(w, ev.event, settings, defaults, reddit, ev.now) == w;
      assert AllBefore(events[1..], w.markers[MarkerKey(reddit.comments[parentId].id, actor)]) by {
        forall i | 0 <= i < |events[1..]| ensures events[1..][i] == events[i + 1] { }
      }
      assert RepeatsOf(events[1..], parentId, actor) by {
        forall i | 0 <= i < |events[1..]| ensures events[1..][i] == events[i + 1] { }
      }
      LiveMarkerBlocksRepeats(w, events[1..], settings, defaults, reddit, parentId, actor);
    }
  }

  /** Idempotence under repeated awards: within the week after an award, repeats by the same actor on the same comment change nothing. */
  lemma AwardedOncePerWeek(w: World, e: CommentEvent, settings: AppSettings, defaults: TemplateDefaults, reddit: Reddit, now: int, events: seq<TimedEvent>)
    requires Evaluate(w, e, settings, reddit, now).Award?
    requires AllBefore(events, now + WEEK_MS)
    requires RepeatsOf(events, e.comment.value.parentId, e.author.value.name)
    ensures var after := ThanksSpec(w, e, settings, defaults, reddit, now);
            Replay(after, events, settings, defaults, reddit) == after
  {
    var v := Evaluate(w, e, settings, reddit, now);
    AwardSetsMarker(w, e, settings, defaults, reddit, now);
    LiveMarkerBlocksRepeats(ThanksSpec(w, e, settings, defaults, reddit, now), events, settings, defaults, reddit, e.comment.value.parentId, v.actor);
  }

}
