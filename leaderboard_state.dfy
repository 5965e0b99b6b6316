/**
 * src/customPost/state.ts: the state behind the leaderboard custom post. It
 * holds the ranked entries fetched from the ledger, seven to a page, and the
 * page being shown, which only moves to a page that exists.
 */
module LeaderboardStateModel {
  import opened Wrappers
  import opened Settings
  import opened Host

  /** One line of the post: who, their score and their place, counted from 1. */
  datatype LeaderboardEntry = LeaderboardEntry(username: string, score: int, rank: int)

  /** The record the post-creation form stores under the key "customPostData". */
  datatype CustomPostData = CustomPostData(postId: string, numberOfUsers: int)

  /** Everything the post state holds, as one value. */
  datatype View = View(size: int, helpUrl: string, entries: seq<LeaderboardEntry>, page: int, subredditName: string)

  const PAGE_SIZE: nat := 7
  const DEFAULT_POST_SIZE: int := 20

  // ---------------------------------------------------------------------
  // How many users the post shows

  /** `getLeaderboardSize`: 20 when nothing (or an empty string) is stored, else the stored number of users. */
  function GetLeaderboardSize(stored: Option<CustomPostData>): int {
    match stored
    case None => DEFAULT_POST_SIZE
    case Some(data) => data.numberOfUsers
  }

  /** The record the creation form writes: a number left blank becomes 20. */
  function NewPostData(postId: string, entered: Option<int>): (r: CustomPostData)
    ensures r.postId == postId
  {
    CustomPostData(postId, entered.GetOr(DEFAULT_POST_SIZE))
  }

  /** The size the post reads back is the number typed into the form, or 20 when none was typed or no post was made. */
  lemma PostSizeReadsBackFormValue(postId: string, entered: Option<int>)
    ensures entered.Some? ==> GetLeaderboardSize(Some(NewPostData(postId, entered))) == entered.value
    ensures entered.None? ==> GetLeaderboardSize(Some(NewPostData(postId, entered))) == 20
    ensures GetLeaderboardSize(None) == 20
  {
  }

  // ---------------------------------------------------------------------
  // Ranking the fetched rows

  /** The rows numbered consecutively from `first`, in the order they came. */
  function RankedFrom(rows: seq<ZMember>, first: int): (board: seq<LeaderboardEntry>)
    ensures |board| == |rows|
    ensures forall i :: 0 <= i < |rows| ==> board[i] == LeaderboardEntry(rows[i].member, rows[i].score, first + i)
    decreases |rows|
  {
    if rows == [] then []
    else [LeaderboardEntry(rows[0].member, rows[0].score, first)] + RankedFrom(rows[1..], first + 1)
  }

  /** The rows as the post numbers them, starting at rank 1. */
  function Ranked(rows: seq<ZMember>): seq<LeaderboardEntry> {
    RankedFrom(rows, 1)
  }

  /**
   * When the rows are a correct answer to the reversed rank query for the
   * first `size` places, the board holds `size` entries at most (for a
   * positive size), its ranks run 1, 2, ..., n, its scores never rise, each
   * entry is a distinct ledger user with their ledger score, and nobody left
   * off scores above anyone shown.
   */
  lemma FetchedBoardIsTop(points: map<string, int>, size: int, rows: seq<ZMember>)
    requires IsTopRange(rows, points, RankCount(|points|, size - 1))
    ensures var board := Ranked(rows);
      && |board| == RankCount(|points|, size - 1)
      && (size >= 1 ==> |board| <= size)
      && (forall i :: 0 <= i < |board| ==> board[i].rank == i + 1)
      && (forall i, j :: 0 <= i < j < |board| ==> board[i].score >= board[j].score)
      && (forall i :: 0 <= i < |board| ==> board[i].username in points && points[board[i].username] == board[i].score)
      && (forall i, j :: 0 <= i < j < |board| ==> board[i].username != board[j].username)
      && (forall u, i :: u in points && (forall j :: 0 <= j < |board| ==> board[j].username != u) && 0 <= i < |board|
            ==> points[u] <= board[i].score)
  {
    var board := Ranked(rows);
    forall i, j | 0 <= i < j < |board| ensures board[i].username != board[j].username {
      assert board[i].username == rows[i].member && board[j].username == rows[j].member;
    }
  }

  /** A stored size of 0 turns the rank range into 0..-1, which lists the whole ledger. */
  lemma ZeroSizeFetchesWholeLedger(points: map<string, int>, rows: seq<ZMember>)
    requires IsTopRange(rows, points, RankCount(|points|, 0 - 1))
    ensures |Ranked(rows)| == |points|
  {
  }

  // ---------------------------------------------------------------------
  // Pages

  /** `maxPage`: `Math.ceil(n / 7)`, the fewest pages of seven that hold `n` entries. */
  function MaxPage(n: nat): (r: nat)
    ensures r * PAGE_SIZE >= n
    ensures r > 0 ==> (r - 1) * PAGE_SIZE < n
    ensures r == 0 <==> n == 0
  {
    (n + PAGE_SIZE - 1) / PAGE_SIZE
  }

  function Min(a: int, b: int): int {
    if a < b then a else b
  }

  /** `entries.slice((page - 1) * 7, page * 7)`: the entries shown on a page. */
  function PageRows(board: seq<LeaderboardEntry>, page: int): (r: seq<LeaderboardEntry>)
    requires page >= 1
    ensures |r| <= PAGE_SIZE
    ensures forall j :: 0 <= j < |r| ==> (page - 1) * PAGE_SIZE + j < |board| && r[j] == board[(page - 1) * PAGE_SIZE + j]
    ensures r != [] <==> page <= MaxPage(|board|)
    ensures page < MaxPage(|board|) ==> |r| == PAGE_SIZE
  {
    var lo := Min((page - 1) * PAGE_SIZE, |board|);
    var hi := Min(page * PAGE_SIZE, |board|);
    board[lo..hi]
  }

  /** The pages from `page` to the last one, one after another. */
  function PagesFrom(board: seq<LeaderboardEntry>, page: int): seq<LeaderboardEntry>
    requires page >= 1
    decreases MaxPage(|board|) - page
  {
    if page > MaxPage(|board|) then [] else PageRows(board, page) + PagesFrom(board, page + 1)
  }

  lemma {:induction false} PagesFromIsSuffix(board: seq<LeaderboardEntry>, page: int)
    requires page >= 1
    ensures PagesFrom(board, page) == board[Min((page - 1) * PAGE_SIZE, |board|)..]
    decreases MaxPage(|board|) - page
  {
    var lo := Min((page - 1) * PAGE_SIZE, |board|);
    if page > MaxPage(|board|) {
      assert lo == |board|;
    } else {
      PagesFromIsSuffix(board, page + 1);
      var mid := Min(page * PAGE_SIZE, |board|);
      assert PageRows(board, page) == board[lo..mid];
      assert board[lo..mid] + board[mid..] == board[lo..];
    }
  }

  /** Reading the pages 1, 2, ..., maxPage in turn shows every entry once, in order. */
  lemma PagesPartitionEntries(board: seq<LeaderboardEntry>)
    ensures PagesFrom(board, 1) == board
  {
    PagesFromIsSuffix(board, 1);
  }

  /** Entry `k` sits on page `k / 7 + 1`, at place `k % 7`, and that page exists. */
  lemma EntryOnItsPage(board: seq<LeaderboardEntry>, k: int)
    requires 0 <= k < |board|
    ensures 1 <= k / PAGE_SIZE + 1 <= MaxPage(|board|)
    ensures var rows := PageRows(board, k / PAGE_SIZE + 1);
      k % PAGE_SIZE < |rows| && rows[k % PAGE_SIZE] == board[k]
  {
    var p := k / PAGE_SIZE + 1;
    assert (p - 1) * PAGE_SIZE + k % PAGE_SIZE == k;
    assert (p - 1) * PAGE_SIZE <= k < |board|;
    var rows := PageRows(board, p);
    assert |rows| == Min(p * PAGE_SIZE, |board|) - (p - 1) * PAGE_SIZE;
  }

  // ---------------------------------------------------------------------
  // Moving between pages and refreshing

  /** The `page` setter: a value below 1 or above `maxPage` is ignored. */
  function SetPageSpec(v: View, value: int): View {
    if value < 1 || value > MaxPage(|v.entries|) then v else v.(page := value)
  }

  /** A page set from an empty board is always ignored. */
  lemma SetPageWithoutEntriesIgnored(v: View, value: int)
    requires v.entries == []
    ensures SetPageSpec(v, value) == v
  {
  }

  /** A set either leaves everything as it was, or moves to a page that shows at least one entry; the page stays at least 1. */
  lemma SetPageLandsOnShownPage(v: View, value: int)
    requires v.page >= 1
    ensures var v' := SetPageSpec(v, value);
      && v'.page >= 1
      && v'.(page := v.page) == v
      && (v'.page != v.page ==> v'.page == value && PageRows(v'.entries, v'.page) != [])
  {
  }

  /** `updateLeaderboard`: the entries are replaced by a fresh fetch and nothing else moves. */
  function RefreshSpec(v: View, rows: seq<ZMember>): View {
    v.(entries := Ranked(rows))
  }

  /**
   * A refresh does not pull the page back: with eight entries on view and
   * the second page shown, a refresh down to seven entries leaves the page at
   * 2, which now shows nothing.
   */
  lemma RefreshCanLeaveEmptyPage(v: View, rows: seq<ZMember>)
    requires |v.entries| == 8 && v.page == 2 && |rows| == 7
    ensures RefreshSpec(v, rows).page == 2
    ensures PageRows(RefreshSpec(v, rows).entries, 2) == []
    ensures PageRows(v.entries, 2) != []
  {
  }

  /**
   * Once the shown page is two or more past the last one, the previous and
   * next buttons (`page -= 1`, `page += 1`) are both ignored; only the page
   * number, which sets page 1, moves it.
   */
  lemma StrandedBeyondLastPage(v: View)
    requires v.page > MaxPage(|v.entries|) + 1
    ensures SetPageSpec(v, v.page - 1) == v
    ensures SetPageSpec(v, v.page + 1) == v
    ensures v.entries != [] ==> SetPageSpec(v, 1).page == 1
  {
  }

  /** The post's state object. */
  class LeaderboardState {
    var size: int
    var helpUrl: string
    var entries: seq<LeaderboardEntry>
    var page: int
    var subredditName: string
    const pageSize: nat

    function Snapshot(): View
      reads this
    {
      View(size, helpUrl, entries, page, subredditName)
    }

    ghost predicate Valid()
      reads this
    {
      pageSize == PAGE_SIZE && page >= 1
    }

    /**
     * Reads the stored size, the help page setting and the subreddit name,
     * fetches the board (`rows` is the store's answer to the rank query) and
     * starts on page 1.
     */
    constructor (stored: Option<CustomPostData>, settings: AppSettings, subreddit: string, rows: seq<ZMember>)
      ensures Valid()
      ensures Snapshot() == View(GetLeaderboardSize(stored), settings.leaderboardHelpPage.GetOr(""), Ranked(rows), 1, subreddit)
    {
      size := GetLeaderboardSize(stored);
      helpUrl := settings.leaderboardHelpPage.GetOr("");
      pageSize := PAGE_SIZE;
      page := 1;
      subredditName := subreddit;
      new;
      entries := FetchLeaderboard(rows);
    }

    /** `maxPage` of the entries held. */
    function LastPage(): (r: nat)
      reads this
      ensures r == 0 <==> entries == []
    {
      MaxPage(|entries|)
    }

    /** `fetchLeaderboard`: numbers the rows the rank query returned, 1 upwards, in the order they came. */
    method FetchLeaderboard(rows: seq<ZMember>) returns (board: seq<LeaderboardEntry>)
      ensures board == Ranked(rows)
    {
      board := [];
      var rank := 1;
      var i := 0;
      while i < |rows|
        invariant 0 <= i <= |rows|
        invariant rank == i + 1
        invariant |board| == i
        invariant forall k :: 0 <= k < i ==> board[k] == LeaderboardEntry(rows[k].member, rows[k].score, k + 1)
      {
        board := board + [LeaderboardEntry(rows[i].member, rows[i].score, rank)];
        rank := rank + 1;
        i := i + 1;
      }
    }

    /** The `page` setter. */
    method SetPage(value: int)
      modifies this
      requires Valid()
      ensures Valid()
      ensures Snapshot() == SetPageSpec(old(Snapshot()), value)
    {
      if value < 1 || value > LastPage() {
        return;
      }
      page := value;
    }

    /** `updateLeaderboard`, run hourly: replaces the entries and leaves the page where it was. */
    method UpdateLeaderboard(rows: seq<ZMember>)
      modifies this
      requires Valid()
      ensures Valid()
      ensures Snapshot() == RefreshSpec(old(Snapshot()), rows)
    {
      entries := FetchLeaderboard(rows);
    }

    /** The entries on the page being shown. */
    function ShownRows(): (r: seq<LeaderboardEntry>)
      reads this
      requires Valid()
      ensures |r| <= pageSize
      ensures r != [] <==> page <= LastPage()
    {
      PageRows(entries, page)
    }
  }
}
