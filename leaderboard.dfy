/**
 * src/leaderboard.ts: rendering the top of the ledger as a wiki page and
 * publishing it, writing the page and its visibility only where they differ
 * from what is wanted.
 */
module Leaderboard {
  import opened Wrappers
  import opened JsString
  import opened Settings
  import opened Host

  /** The mode and page settings ask for a leaderboard: a mode other than Off is chosen and a page is named. */
  predicate Enabled(settings: AppSettings) {
    && settings.leaderboardMode.Some? && |settings.leaderboardMode.value| > 0
    && settings.leaderboardMode.value[0] != Off
    && IsSet(settings.leaderboardWikiPage)
  }

  // ---------------------------------------------------------------------
  // How many users are shown

  /** `leaderboardSize - 1` as the last rank of `zRange(..., { by: "rank", reverse: true })`: how many rows come back. */
  function ShownCount(points: map<string, int>, size: int): nat {
    RankCount(|points|, size - 1)
  }

  /** The size as the handler reads it: a missing value means 20, a stored 0 stays 0. */
  function LeaderboardSizeAsWritten(settings: AppSettings): int {
    settings.leaderboardSize.GetOr(DEFAULT_LEADERBOARD_SIZE)
  }

  /**
   * A stored 0 passes the validator and makes the rank range end at -1, so
   * the page lists the whole ledger while announcing "the top 0 users".
   */
  lemma LeaderboardSizeZeroListsEveryone(settings: AppSettings, points: map<string, int>, rows: seq<ZMember>)
    requires settings.leaderboardSize == Some(0)
    requires IsTopRange(rows, points, ShownCount(points, LeaderboardSizeAsWritten(settings)))
    ensures ValidateLeaderboardSize(settings.leaderboardSize).None?
    ensures LeaderboardSizeAsWritten(settings) == 0
    ensures |rows| == |points| && Members(rows) == points.Keys
  {
    assert ShownCount(points, 0) == |points|;
    TopRowsAreTheBest(rows, points, 0);
    SubsetOfSameSize(Members(rows), points.Keys);
  }

  /**
   * The size as evidently intended: the validator lets 0 through as "no
   * value", so 0 is read like a missing value.
   */
  function LeaderboardSize(settings: AppSettings): (r: int)
    ensures r != 0
    ensures settings.leaderboardSize.Some? && settings.leaderboardSize.value != 0 ==> r == settings.leaderboardSize.value
    ensures settings.leaderboardSize.None? || settings.leaderboardSize == Some(0) ==> r == DEFAULT_LEADERBOARD_SIZE
  {
    if settings.leaderboardSize.None? || settings.leaderboardSize.value == 0 then DEFAULT_LEADERBOARD_SIZE
    else settings.leaderboardSize.value
  }

  /**
   * For any size the validator accepts, the page shows the `size` best users,
   * or everyone when there are fewer, and never more than it announces.
   */
  lemma ShownCountMatchesAnnouncedSize(settings: AppSettings, points: map<string, int>)
    requires ValidateLeaderboardSize(settings.leaderboardSize).None?
    ensures var size := LeaderboardSize(settings);
            && 10 <= size <= 100
            && ShownCount(points, size) == (if |points| < size then |points| else size)
            && ShownCount(points, size) <= size
  {
  }

  /** As written, every accepted size other than 0 shows the `size` best users, or everyone when there are fewer. */
  lemma ShownCountAsWritten(settings: AppSettings, points: map<string, int>)
    requires ValidateLeaderboardSize(settings.leaderboardSize).None?
    requires settings.leaderboardSize != Some(0)
    ensures var size := LeaderboardSizeAsWritten(settings);
            && 10 <= size <= 100
            && ShownCount(points, size) == (if |points| < size then |points| else size)
  {
  }

  /** The listed users are the best: distinct, in descending order, and nobody left out scores above anyone listed. */
  lemma TopRowsAreTheBest(rows: seq<ZMember>, points: map<string, int>, size: int)
    requires IsTopRange(rows, points, ShownCount(points, size))
    ensures Members(rows) <= points.Keys
    ensures |Members(rows)| == |rows| == ShownCount(points, size)
    ensures forall i :: 0 <= i < |rows| ==> points[rows[i].member] == rows[i].score
    ensures size > |points| ==> Members(rows) == points.Keys
  {
    DistinctMembersCount(rows);
    if size > |points| {
      assert |rows| == |points|;
      SubsetOfSameSize(Members(rows), points.Keys);
    }
  }

  lemma SubsetOfSameSize(a: set<string>, b: set<string>)
    requires a <= b && |a| == |b|
    ensures a == b
  {
    assert b == a + (b - a);
    assert |b - a| == 0;
  }

  // ---------------------------------------------------------------------
  // The page text

  function Header(subredditName: string): string {
    "# ReputatorBot High Scores for " + subredditName + "\n\nUser | Points Total\n-|-\n"
  }

  /** One table row: the escaped name, a bar, the score. */
  function Row(reddit: Reddit, score: ZMember): string {
    reddit.markdownEscape(score.member) + "|" + IntToString(score.score)
  }

  function Rows(reddit: Reddit, rows: seq<ZMember>): (r: seq<string>)
    ensures |r| == |rows|
    ensures forall i :: 0 <= i < |rows| ==> r[i] == Row(reddit, rows[i])
  {
    seq(|rows|, i requires 0 <= i < |rows| => Row(reddit, rows[i]))
  }

  /** `pluralize(word, n)` for the two words the page uses. */
  function Pluralize(singular: string, plural: string, n: int): string {
    if n == 1 then singular else plural
  }

  function Summary(size: int): string {
    "\n\nThe leaderboard shows the top " + IntToString(size) + " " + Pluralize("user", "users", size)
    + " who " + Pluralize("has", "have", size) + " been awarded at least one point"
  }

  /** The "since" clause, present exactly when an install date is stored. */
  function SinceClause(installDate: Option<string>, reddit: Reddit): (r: string)
    ensures r != [] <==> IsSet(installDate)
  {
    if IsSet(installDate) then " since " + reddit.utcString(installDate.value) else ""
  }

  /** The help link, present exactly when a help page is configured. */
  function HelpLink(helpPage: Option<string>, subredditName: string): (r: string)
    ensures r != [] <==> IsSet(helpPage)
  {
    if IsSet(helpPage) then "\n\n[How to award points on /r/" + subredditName + "](" + helpPage.value + ")" else ""
  }

  /** Everything before the full stop: header, rows joined by line breaks, summary, optional "since". */
  function Body(installDate: Option<string>, settings: AppSettings, reddit: Reddit, rows: seq<ZMember>): string {
    Header(reddit.subredditName) + Table(installDate, settings, reddit, rows)
  }

  /** The rows joined by line breaks, the summary and the optional "since". */
  function Table(installDate: Option<string>, settings: AppSettings, reddit: Reddit, rows: seq<ZMember>): string {
    Join(Rows(reddit, rows), "\n") + Summary(LeaderboardSizeAsWritten(settings)) + SinceClause(installDate, reddit)
  }

  /** The whole page: the body, a full stop, and the optional help link. */
  function LeaderboardText(installDate: Option<string>, settings: AppSettings, reddit: Reddit, rows: seq<ZMember>): string {
    Body(installDate, settings, reddit, rows) + "." + HelpLink(settings.leaderboardHelpPage, reddit.subredditName)
  }

  /** The page always opens with the header. */
  lemma LeaderboardTextOpensWithHeader(installDate: Option<string>, settings: AppSettings, reddit: Reddit, rows: seq<ZMember>)
    ensures Header(reddit.subredditName) <= LeaderboardText(installDate, settings, reddit, rows)
  {
    PrefixOfConcat(Header(reddit.subredditName), Table(installDate, settings, reddit, rows), ".",
                   HelpLink(settings.leaderboardHelpPage, reddit.subredditName));
  }

  lemma PrefixOfConcat(a: string, b: string, c: string, d: string)
    ensures a <= a + b + c + d
  {
    assert (a + b + c + d)[..|a|] == a;
  }

  /** Without a help page the page closes with the full stop. */
  lemma LeaderboardTextClosesWithFullStop(installDate: Option<string>, settings: AppSettings, reddit: Reddit, rows: seq<ZMember>)
    requires !IsSet(settings.leaderboardHelpPage)
    ensures var text := LeaderboardText(installDate, settings, reddit, rows);
            text != [] && text[|text| - 1] == '.'
  {
    var body := Body(installDate, settings, reddit, rows);
    assert LeaderboardText(installDate, settings, reddit, rows) == body + ".";
  }

  // ---------------------------------------------------------------------
  // Publication

  /** The visibility the page should have: the subreddit's wiki permissions when public, mods only otherwise. */
  function TargetPermission(mode: LeaderboardMode): (r: PermLevel)
    ensures r == SubredditPermissions <==> mode == Public
    ensures r != SubredditPermissions ==> r == ModsOnly
  {
    if mode == Public then SubredditPermissions else ModsOnly
  }

  /** The visibility a page created by `createWikiPage` starts with. */
  const NEW_PAGE_PERMISSION: PermLevel := SubredditPermissions

  /** The page as the handler leaves it: the rendered text at the target visibility. */
  function PublishSpec(w: World, settings: AppSettings, reddit: Reddit, rows: seq<ZMember>): World {
    if !Enabled(settings) then w
    else
      var page := WikiPage(LeaderboardText(w.installDate, settings, reddit, rows), TargetPermission(settings.leaderboardMode.value[0]));
      w.(wikiPages := w.wikiPages[settings.leaderboardWikiPage.value := page])
  }

  /** Which of the two wiki writes the handler performs. */
  datatype WikiWrites = WikiWrites(content: bool, permission: bool)

  /**
   * The content is written when the page is missing or differs; the
   * visibility when the page's current one (a new page's default when it was
   * just created) differs from the target.
   */
  function PlannedWrites(w: World, settings: AppSettings, reddit: Reddit, rows: seq<ZMember>): (r: WikiWrites)
    ensures !Enabled(settings) ==> r == WikiWrites(false, false)
    ensures Enabled(settings) ==>
              var name := settings.leaderboardWikiPage.value;
              var text := LeaderboardText(w.installDate, settings, reddit, rows);
              var target := TargetPermission(settings.leaderboardMode.value[0]);
              && (r.content <==> name !in w.wikiPages || w.wikiPages[name].content != text)
              && (r.permission <==> (if name in w.wikiPages then w.wikiPages[name].permLevel else NEW_PAGE_PERMISSION) != target)
  {
    if !Enabled(settings) then WikiWrites(false, false)
    else
      var name := settings.leaderboardWikiPage.value;
      var text := LeaderboardText(w.installDate, settings, reddit, rows);
      var current := if name in w.wikiPages then w.wikiPages[name].permLevel else NEW_PAGE_PERMISSION;
      WikiWrites(name !in w.wikiPages || w.wikiPages[name].content != text,
                 current != TargetPermission(settings.leaderboardMode.value[0]))
  }

  /**
   * `updateLeaderboard`; `highScores` is the answer to the reverse rank query
   * for the size as the handler reads it (`LeaderboardSizeAsWritten`).
   * Returns which writes it made.
   */
  method UpdateLeaderboard(ctx: Context, settings: AppSettings, reddit: Reddit, highScores: seq<ZMember>)
    returns (writes: WikiWrites)
    requires IsTopRange(highScores, ctx.points, ShownCount(ctx.points, LeaderboardSizeAsWritten(settings)))
    modifies ctx
    ensures ctx.State() == PublishSpec(old(ctx.State()), settings, reddit, highScores)
    ensures writes == PlannedWrites(old(ctx.State()), settings, reddit, highScores)
  {
    var leaderboardMode := settings.leaderboardMode;
    if leaderboardMode.None? || |leaderboardMode.value| == 0 || leaderboardMode.value[0] == Off {
      return WikiWrites(false, false);
    }
    var wikiPageName := settings.leaderboardWikiPage;
    if !IsSet(wikiPageName) {
      return WikiWrites(false, false);
    }
    var wikiContents := LeaderboardText(ctx.installDate, settings, reddit, highScores);
    writes := WritePage(ctx, wikiPageName.value, wikiContents, TargetPermission(leaderboardMode.value[0]));
  }

  /**
   * The write half of `updateLeaderboard`: create the page or update its
   * content when it differs, then set its visibility when that differs.
   */
  method WritePage(ctx: Context, name: string, wikiContents: string, correctPermissionLevel: PermLevel)
    returns (writes: WikiWrites)
    modifies ctx
    ensures ctx.State() == old(ctx.State()).(wikiPages := old(ctx.wikiPages)[name := WikiPage(wikiContents, correctPermissionLevel)])
    ensures writes.content <==> name !in old(ctx.wikiPages) || old(ctx.wikiPages)[name].content != wikiContents
    ensures writes.permission <==>
              (if name in old(ctx.wikiPages) then old(ctx.wikiPages)[name].permLevel else NEW_PAGE_PERMISSION) != correctPermissionLevel
  {
    ghost var pages := ctx.wikiPages;
    var page: WikiPage;
    writes := WikiWrites(false, false);
    if name in ctx.wikiPages {
      page := ctx.wikiPages[name];
      if page.content != wikiContents {
        page := page.(content := wikiContents);
        ctx.wikiPages := ctx.wikiPages[name := page];
        writes := writes.(content := true);
      }
    } else {
      page := WikiPage(wikiContents, NEW_PAGE_PERMISSION);
      ctx.wikiPages := ctx.wikiPages[name := page];
      writes := writes.(content := true);
    }
    assert page.content == wikiContents && ctx.wikiPages == pages[name := page];
    if page.permLevel != correctPermissionLevel {
      ctx.wikiPages := ctx.wikiPages[name := page.(permLevel := correctPermissionLevel)];
      writes := writes.(permission := true);
    }
  }

  /** A leaderboard that is switched off or has no page name reads and writes nothing. */
  lemma DisabledLeaderboardChangesNothing(w: World, settings: AppSettings, reddit: Reddit, rows: seq<ZMember>)
    requires !Enabled(settings)
    ensures PublishSpec(w, settings, reddit, rows) == w
    ensures PlannedWrites(w, settings, reddit, rows) == WikiWrites(false, false)
  {
  }

  /** Publishing never touches any other wiki page or any store. */
  lemma PublishTouchesOnlyItsPage(w: World, settings: AppSettings, reddit: Reddit, rows: seq<ZMember>)
    ensures var after := PublishSpec(w, settings, reddit, rows);
            && after.(wikiPages := w.wikiPages) == w
            && forall name :: name in w.wikiPages && (!Enabled(settings) || name != settings.leaderboardWikiPage.value)
                 ==> name in after.wikiPages && after.wikiPages[name] == w.wikiPages[name]
  {
  }

  /** Publishing again with the same ledger writes nothing and leaves the page as it is. */
  lemma RepublishWritesNothing(w: World, settings: AppSettings, reddit: Reddit, rows: seq<ZMember>)
    ensures var once := PublishSpec(w, settings, reddit, rows);
            && PublishSpec(once, settings, reddit, rows) == once
            && PlannedWrites(once, settings, reddit, rows) == WikiWrites(false, false)
  {
    if Enabled(settings) {
      var name := settings.leaderboardWikiPage.value;
      var page := WikiPage(LeaderboardText(w.installDate, settings, reddit, rows), TargetPermission(settings.leaderboardMode.value[0]));
      var once := PublishSpec(w, settings, reddit, rows);
      assert once == w.(wikiPages := w.wikiPages[name := page]);
      assert once.wikiPages[name := page] == once.wikiPages;
    }
  }
}
