/**
 * src/settings.ts: the three select-field enumerations, the settings form
 * validators, the template defaults, and a typed view of the settings bag.
 */
module Settings {
  import opened Wrappers

  // ---------------------------------------------------------------------
  // Enumerations

  datatype ExistingFlairOverwriteHandling = OverwriteNumeric | OverwriteAll | NeverSet {
    function Value(): string {
      match this
      case OverwriteNumeric => "overwritenumeric"
      case OverwriteAll => "overwriteall"
      case NeverSet => "neverset"
    }
  }

  datatype ReplyOptions = NoReply | ReplyByPM | ReplyAsComment {
    function Value(): string {
      match this
      case NoReply => "none"
      case ReplyByPM => "replybypm"
      case ReplyAsComment => "replybycomment"
    }
  }

  datatype LeaderboardMode = Off | ModOnly | Public {
    function Value(): string {
      match this
      case Off => "off"
      case ModOnly => "modonly"
      case Public => "public"
    }
  }

  /** The stored select value back to its enumeration member. */
  function FlairHandlingFromValue(s: string): (r: Option<ExistingFlairOverwriteHandling>)
    ensures r.Some? ==> r.value.Value() == s
    ensures forall m: ExistingFlairOverwriteHandling :: m.Value() == s ==> r == Some(m)
  {
    if s == "overwritenumeric" then Some(OverwriteNumeric)
    else if s == "overwriteall" then Some(OverwriteAll)
    else if s == "neverset" then Some(NeverSet)
    else None
  }

  function ReplyOptionFromValue(s: string): (r: Option<ReplyOptions>)
    ensures r.Some? ==> r.value.Value() == s
    ensures forall m: ReplyOptions :: m.Value() == s ==> r == Some(m)
  {
    if s == "none" then Some(NoReply)
    else if s == "replybypm" then Some(ReplyByPM)
    else if s == "replybycomment" then Some(ReplyAsComment)
    else None
  }

  function LeaderboardModeFromValue(s: string): (r: Option<LeaderboardMode>)
    ensures r.Some? ==> r.value.Value() == s
    ensures forall m: LeaderboardMode :: m.Value() == s ==> r == Some(m)
  {
    if s == "off" then Some(Off)
    else if s == "modonly" then Some(ModOnly)
    else if s == "public" then Some(Public)
    else None
  }

  /** The option lists offered by the three select fields, in form order. */
  const REPLY_OPTION_CHOICES: seq<ReplyOptions> := [NoReply, ReplyByPM, ReplyAsComment]
  const FLAIR_HANDLING_CHOICES: seq<ExistingFlairOverwriteHandling> := [OverwriteNumeric, OverwriteAll, NeverSet]
  const LEADERBOARD_MODE_CHOICES: seq<LeaderboardMode> := [Off, ModOnly, Public]

  const DEFAULT_FLAIR_HANDLING: ExistingFlairOverwriteHandling := OverwriteNumeric
  const DEFAULT_LEADERBOARD_MODE: LeaderboardMode := Off
  const DEFAULT_REPLY_OPTION: ReplyOptions := NoReply
  const DEFAULT_THANKS_COMMAND: string := "!thanks"
  const DEFAULT_MOD_THANKS_COMMAND: string := "!modthanks"
  const DEFAULT_LEADERBOARD_WIKI_PAGE: string := "reputatorbotleaderboard"
  const DEFAULT_LEADERBOARD_SIZE: int := 20

  /**
   * Every enumeration has exactly three members, each offered once by its
   * select field, and distinct members are stored as distinct strings.
   */
  lemma ChoicesAreExactlyTheMembers()
    ensures |REPLY_OPTION_CHOICES| == 3 && |FLAIR_HANDLING_CHOICES| == 3 && |LEADERBOARD_MODE_CHOICES| == 3
    ensures forall m: ReplyOptions :: m in REPLY_OPTION_CHOICES
    ensures forall m: ExistingFlairOverwriteHandling :: m in FLAIR_HANDLING_CHOICES
    ensures forall m: LeaderboardMode :: m in LEADERBOARD_MODE_CHOICES
    ensures forall m: ReplyOptions, n: ReplyOptions :: m.Value() == n.Value() ==> m == n
    ensures forall m: ExistingFlairOverwriteHandling, n: ExistingFlairOverwriteHandling :: m.Value() == n.Value() ==> m == n
    ensures forall m: LeaderboardMode, n: LeaderboardMode :: m.Value() == n.Value() ==> m == n
  {
    forall m: ReplyOptions ensures m in REPLY_OPTION_CHOICES {
      match m {
        case NoReply => assert REPLY_OPTION_CHOICES[0] == m;
        case ReplyByPM => assert REPLY_OPTION_CHOICES[1] == m;
        case ReplyAsComment => assert REPLY_OPTION_CHOICES[2] == m;
      }
    }
    forall m: ExistingFlairOverwriteHandling ensures m in FLAIR_HANDLING_CHOICES {
      match m {
        case OverwriteNumeric => assert FLAIR_HANDLING_CHOICES[0] == m;
        case OverwriteAll => assert FLAIR_HANDLING_CHOICES[1] == m;
        case NeverSet => assert FLAIR_HANDLING_CHOICES[2] == m;
      }
    }
    forall m: LeaderboardMode ensures m in LEADERBOARD_MODE_CHOICES {
      match m {
        case Off => assert LEADERBOARD_MODE_CHOICES[0] == m;
        case ModOnly => assert LEADERBOARD_MODE_CHOICES[1] == m;
        case Public => assert LEADERBOARD_MODE_CHOICES[2] == m;
      }
    }
  }

  // ---------------------------------------------------------------------
  // Template defaults (placeholders are substituted with replaceAll)

  const NOTIFY_ON_ERROR_TEMPLATE: string :=
    "Hello {{authorname}},\n\nYou cannot award a point to yourself.\n\nPlease contact the mods if you have any questions.\n\n---\n\n^(I am a bot)"
  const NOTIFY_ON_SUCCESS_TEMPLATE: string :=
    "You have awarded 1 point to {{awardeeusername}}.\n\n---\n\n^(I am a bot - please contact the mods with any questions)"
  const NOTIFY_AWARDED_USER_TEMPLATE: string :=
    "Hello {{awardeeusername}},\n\nYou have been awarded a point for your contribution! New score: {{score}}\n\n---\n\n^(I am a bot - please contact the mods with any questions)"
  const NOTIFY_ON_SUPERUSER_TEMPLATE: string :=
    "Hello {{authorname}},\n\nNow that you have reached {{threshold}} points you can now award points yourself, even if you're not the OP. Please use the command \"{{pointscommand}}\" if you'd like to do this.\n\n---\n\n^(I am a bot - please contact the mods with any questions)"

  /**
   * The default texts of the four reply templates, as one value. The event
   * handlers take this as a parameter and fall back to it when a template
   * setting is unset; `TEMPLATE_DEFAULTS` holds the texts the app ships.
   */
  datatype TemplateDefaults = TemplateDefaults(
    notifyOnError: string,
    notifyOnSuccess: string,
    notifyAwardedUser: string,
    notifyOnSuperuser: string)

  const TEMPLATE_DEFAULTS := TemplateDefaults(
    NOTIFY_ON_ERROR_TEMPLATE, NOTIFY_ON_SUCCESS_TEMPLATE,
    NOTIFY_AWARDED_USER_TEMPLATE, NOTIFY_ON_SUPERUSER_TEMPLATE)

  // ---------------------------------------------------------------------
  // Typed settings

  /**
   * The settings bag read by `context.settings.getAll()`. A text setting is
   * `None` when unset; a select setting holds its single chosen member (the
   * validators below require exactly one); booleans are false when unset.
   */
  datatype AppSettings = AppSettings(
    thanksCommand: Option<string>,
    modThanksCommand: Option<string>,
    thanksCommandUsesRegex: bool,
    anyoneCanAwardPoints: bool,
    superUsers: Option<string>,
    autoSuperuserThreshold: Option<int>,
    notifyOnAutoSuperuser: Option<ReplyOptions>,
    notifyOnAutoSuperuserTemplate: Option<string>,
    usersWhoCannotBeAwardedPoints: Option<string>,
    usersWhoCannotAwardPoints: Option<string>,
    existingFlairHandling: Option<ExistingFlairOverwriteHandling>,
    cssClass: Option<string>,
    flairTemplate: Option<string>,
    notifyOnError: Option<ReplyOptions>,
    notifyOnErrorTemplate: Option<string>,
    notifyOnSuccess: Option<ReplyOptions>,
    notifyOnSuccessTemplate: Option<string>,
    notifyAwardedUser: Option<ReplyOptions>,
    notifyAwardedUserTemplate: Option<string>,
    setPostFlairOnThanks: Option<bool>,
    setPostFlairText: Option<string>,
    setPostFlairCSSClass: Option<string>,
    setPostFlairTemplate: Option<string>,
    leaderboardMode: Option<seq<LeaderboardMode>>,
    leaderboardWikiPage: Option<string>,
    leaderboardSize: Option<int>,
    leaderboardHelpPage: Option<string>,
    postFlairTextToIgnore: Option<string>,
    enableBackup: bool,
    enableRestore: bool,
    prioritiseScoreFromFlair: bool)

  /** JavaScript truthiness of an optional string: present and non-empty. */
  predicate IsSet(o: Option<string>) {
    o.Some? && o.value != []
  }

  // ---------------------------------------------------------------------
  // Validators: `None` accepts the value, `Some(message)` rejects it.

  /** `selectFieldHasOptionChosen`. */
  function SelectFieldHasOptionChosen(value: Option<seq<string>>): (r: Option<string>)
    ensures r.None? <==> value.Some? && |value.value| == 1
  {
    if value.None? || |value.value| != 1 then Some("You must choose an option") else None
  }

  /** The thanks-command field's inline validator. */
  function ValidateThanksCommand(value: Option<string>): (r: Option<string>)
    ensures r.None? <==> IsSet(value)
  {
    if !IsSet(value) then Some("You must specify a command") else None
  }

  /** `\w` of a JavaScript regular expression. */
  predicate IsWordChar(c: char) {
    'a' <= c <= 'z' || 'A' <= c <= 'Z' || '0' <= c <= '9' || c == '_'
  }

  /** `/^[\w/]+$/i`. */
  predicate MatchesWikiPageName(s: string)
    decreases |s|
  {
    s != [] && (IsWordChar(s[0]) || s[0] == '/') && (|s| == 1 || MatchesWikiPageName(s[1..]))
  }

  const INVALID_WIKI_PAGE_NAME := "Invalid wiki page name. Wiki page name must consist of alphanumeric characters and / characters only."

  /** The leaderboard wiki page field's inline validator. */
  function ValidateLeaderboardWikiPage(value: Option<string>): (r: Option<string>)
    ensures r.None? <==> !IsSet(value) || forall i :: 0 <= i < |value.value| ==> IsWordChar(value.value[i]) || value.value[i] == '/'
  {
    WikiPageNameShape(if value.Some? then value.value else []);
    if IsSet(value) && !MatchesWikiPageName(value.value) then
      Some(INVALID_WIKI_PAGE_NAME)
    else None
  }

  lemma {:induction false} WikiPageNameShape(s: string)
    ensures MatchesWikiPageName(s) <==> s != [] && forall i :: 0 <= i < |s| ==> IsWordChar(s[i]) || s[i] == '/'
    decreases |s|
  {
    if |s| > 1 {
      WikiPageNameShape(s[1..]);
      assert forall i :: 1 <= i < |s| ==> s[i] == s[1..][i - 1];
    }
  }

  /** The leaderboard size field's inline validator: 0 or unset, or 10..100. */
  function ValidateLeaderboardSize(value: Option<int>): (r: Option<string>)
    ensures r.None? <==> value.None? || value.value == 0 || 10 <= value.value <= 100
  {
    if value.Some? && value.value != 0 && (value.value < 10 || value.value > 100) then
      Some("Value should be between 10 and 100")
    else None
  }

  /** Every field's default value passes that field's validator. */
  lemma DefaultsAreValid()
    ensures ValidateThanksCommand(Some(DEFAULT_THANKS_COMMAND)).None?
    ensures ValidateLeaderboardWikiPage(Some(DEFAULT_LEADERBOARD_WIKI_PAGE)).None?
    ensures ValidateLeaderboardSize(Some(DEFAULT_LEADERBOARD_SIZE)).None?
    ensures SelectFieldHasOptionChosen(Some([DEFAULT_FLAIR_HANDLING.Value()])).None?
    ensures SelectFieldHasOptionChosen(Some([DEFAULT_LEADERBOARD_MODE.Value()])).None?
    ensures SelectFieldHasOptionChosen(Some([DEFAULT_REPLY_OPTION.Value()])).None?
  {
    var page := DEFAULT_LEADERBOARD_WIKI_PAGE;
    assert forall i :: 0 <= i < |page| ==> IsWordChar(page[i]);
  }

  // ---------------------------------------------------------------------
  // Flair template ids

  predicate IsLowerHex(c: char) {
    '0' <= c <= '9' || 'a' <= c <= 'f'
  }

  /** One piece of a fixed-shape regular expression: a literal '-' or `[0-9a-f]{count}`. */
  datatype Piece = Dash | Hex(count: nat)

  function Repeat(group: seq<Piece>, times: nat): seq<Piece> {
    if times == 0 then [] else group + Repeat(group, times - 1)
  }

  /** A left-to-right matcher for an anchored sequence of pieces. */
  predicate MatchPieces(s: string, pieces: seq<Piece>)
    decreases |pieces|
  {
    if pieces == [] then s == []
    else match pieces[0]
      case Dash => s != [] && s[0] == '-' && MatchPieces(s[1..], pieces[1..])
      case Hex(n) => |s| >= n && (forall i :: 0 <= i < n ==> IsLowerHex(s[i])) && MatchPieces(s[n..], pieces[1..])
  }

  /** For each position a piece sequence spans: true where it demands '-', false where a hex digit. */
  function DashPositions(pieces: seq<Piece>): seq<bool>
    decreases |pieces|
  {
    if pieces == [] then []
    else (match pieces[0] case Dash => [true] case Hex(n) => seq(n, _ => false)) + DashPositions(pieces[1..])
  }

  predicate Fits(c: char, dash: bool) {
    if dash then c == '-' else IsLowerHex(c)
  }

  /** `s` fits the positions `head + rest` exactly when its front fits `head` and its remainder fits `rest`. */
  lemma FitsConcat(s: string, head: seq<bool>, rest: seq<bool>)
    requires |s| >= |head|
    ensures (|s| == |head + rest| && forall i :: 0 <= i < |s| ==> Fits(s[i], (head + rest)[i]))
            <==> (forall i :: 0 <= i < |head| ==> Fits(s[i], head[i]))
                 && |s[|head|..]| == |rest| && forall i :: 0 <= i < |rest| ==> Fits(s[|head|..][i], rest[i])
  {
    var k := |head|;
    if |s| == |head + rest| && forall i :: 0 <= i < |rest| ==> Fits(s[k..][i], rest[i]) {
      forall i | k <= i < |s|
        ensures Fits(s[i], (head + rest)[i])
      {
        assert s[i] == s[k..][i - k];
      }
    }
  }

  /** The matcher accepts exactly the strings that fit the spanned positions one by one. */
  lemma {:induction false} MatchPiecesByPosition(s: string, pieces: seq<Piece>)
    ensures MatchPieces(s, pieces)
            <==> |s| == |DashPositions(pieces)| && forall i :: 0 <= i < |s| ==> Fits(s[i], DashPositions(pieces)[i])
    decreases |pieces|
  {
    if pieces != [] {
      var head := match pieces[0] case Dash => [true] case Hex(n) => seq(n, _ => false);
      var rest := DashPositions(pieces[1..]);
      assert DashPositions(pieces) == head + rest;
      var k := |head|;
      if |s| >= k {
        MatchPiecesByPosition(s[k..], pieces[1..]);
        FitsConcat(s, head, rest);
      }
    }
  }

  /** `/^[0-9a-f]{8}(?:-[0-9a-f]{4}){4}[0-9a-f]{8}$/`, the flair template id pattern. */
  const FLAIR_TEMPLATE_PATTERN: seq<Piece> := [Hex(8)] + Repeat([Dash, Hex(4)], 4) + [Hex(8)]

  /** A lower-case UUID in the textual 8-4-4-4-12 layout of RFC 4122, section 3, stated position by position. */
  predicate IsUuid(s: string) {
    |s| == 36 && forall i :: 0 <= i < 36 ==> Fits(s[i], i == 8 || i == 13 || i == 18 || i == 23)
  }

  lemma DashPositionsCons(pieces: seq<Piece>)
    requires pieces != []
    ensures DashPositions(pieces)
            == (match pieces[0] case Dash => [true] case Hex(n) => seq(n, _ => false)) + DashPositions(pieces[1..])
  {
  }

  /** Positions spanned by `[Dash, Hex(4)]` repeated, followed by `tail`. */
  lemma {:induction false} DashQuadPositions(times: nat, tail: seq<Piece>)
    ensures var p := DashPositions(Repeat([Dash, Hex(4)], times) + tail);
      && |p| == 5 * times + |DashPositions(tail)|
      && (forall j :: 0 <= j < 5 * times ==> p[j] == (j % 5 == 0))
      && (forall j :: 5 * times <= j < |p| ==> p[j] == DashPositions(tail)[j - 5 * times])
    decreases times
  {
    if times > 0 {
      var rest := Repeat([Dash, Hex(4)], times - 1) + tail;
      var all := Repeat([Dash, Hex(4)], times) + tail;
      assert all == [Dash] + ([Hex(4)] + rest);
      DashPositionsCons(all);
      assert all[1..] == [Hex(4)] + rest;
      DashPositionsCons(all[1..]);
      assert all[1..][1..] == rest;
      var r := DashPositions(rest);
      var p := DashPositions(all);
      assert p == [true] + seq(4, _ => false) + r;
      DashQuadPositions(times - 1, tail);
      var n := 5 * times;
      assert 5 * (times - 1) == n - 5;
      assert |p| == 5 + |r|;
      forall j | 5 <= j < |p| ensures p[j] == r[j - 5] {
      }
      forall j | 0 <= j < n ensures p[j] == (j % 5 == 0) {
        if j >= 5 {
          assert p[j] == r[j - 5] == ((j - 5) % 5 == 0);
        }
      }
    } else {
      assert Repeat([Dash, Hex(4)], times) + tail == tail;
    }
  }

  /** Positions spanned by `Hex(8)` followed by `rest`. */
  lemma HexHeadPositions(rest: seq<Piece>)
    ensures DashPositions([Hex(8)] + rest) == seq(8, _ => false) + DashPositions(rest)
  {
    DashPositionsCons([Hex(8)] + rest);
    assert ([Hex(8)] + rest)[1..] == rest;
  }

  lemma PatternPositions()
    ensures |DashPositions(FLAIR_TEMPLATE_PATTERN)| == 36
    ensures forall i :: 0 <= i < 36 ==> DashPositions(FLAIR_TEMPLATE_PATTERN)[i] == (i == 8 || i == 13 || i == 18 || i == 23)
  {
    var tail := [Hex(8)];
    var body := Repeat([Dash, Hex(4)], 4) + tail;
    assert FLAIR_TEMPLATE_PATTERN == [Hex(8)] + body;
    HexHeadPositions(body);
    DashPositionsCons(tail);
    assert tail[1..] == [];
    DashQuadPositions(4, tail);
    var p := DashPositions(FLAIR_TEMPLATE_PATTERN);
    forall i | 0 <= i < 36
      ensures p[i] == (i == 8 || i == 13 || i == 18 || i == 23)
    {
      if 8 <= i < 28 {
        assert p[i] == ((i - 8) % 5 == 0);
      }
    }
  }

  /**
   * `isFlairTemplateValid`: an empty or absent value is accepted, any other
   * value only if it is a lower-case UUID (the `{4}` group's last four digits
   * and the final eight together form the twelve-digit group).
   */
  function IsFlairTemplateValid(value: Option<string>): (r: Option<string>)
    ensures r.None? <==> !IsSet(value) || IsUuid(value.value)
  {
    PatternMatchesUuids(value.GetOr([]));
    if IsSet(value) && !MatchPieces(value.value, FLAIR_TEMPLATE_PATTERN) then Some("Invalid flair template ID")
    else None
  }

  lemma PatternMatchesUuids(s: string)
    ensures MatchPieces(s, FLAIR_TEMPLATE_PATTERN) <==> IsUuid(s)
  {
    MatchPiecesByPosition(s, FLAIR_TEMPLATE_PATTERN);
    PatternPositions();
  }
}
