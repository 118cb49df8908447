/**
 * The layout wrapper around every page: whether the top navigation bar is
 * shown for a path, and the top padding of the main area that makes room for
 * it.
 */
module Layout {
  import opened Text

  /** What the wrapper renders around the page content. */
  datatype Frame = Frame(showNav: bool, mainClass: string)

  /** The navigation bar's two links. */
  const PuzzleLink: string := "/puzzles/1"
  const EmojiLink: string := "/emojis"

  predicate IsPuzzlePage(path: string) {
    StartsWith(path, "/puzzles/")
  }

  predicate IsEmojiPage(path: string) {
    StartsWith(path, "/emojis")
  }

  /** The header is hidden on every puzzle page and on every path under the emoji prefix. */
  predicate IsHideHeader(path: string)
    ensures IsHideHeader(path) ==> |path| >= 7 && path[0] == '/' && (path[1] == 'p' || path[1] == 'e')
    ensures |path| < 7 ==> !IsHideHeader(path)
  {
    IsPuzzlePage(path) || IsEmojiPage(path)
  }

  /** The main area's class list: small top padding without the bar, room for the fixed bar with it. */
  function MainClass(hideHeader: bool): (r: string)
    ensures hideHeader ==> r == "pt-4 md:pt-8 min-h-screen"
    ensures !hideHeader ==> r == "pt-24 min-h-screen"
  {
    var padding := if hideHeader then "pt-4 md:pt-8" else "pt-24";
    padding + " min-h-screen"
  }

  /** The wrapper for a path. */
  function Render(path: string): (r: Frame)
    ensures r.showNav <==> !StartsWith(path, "/puzzles/") && !StartsWith(path, "/emojis")
    ensures r.showNav ==> r.mainClass == "pt-24 min-h-screen"
    ensures !r.showNav ==> r.mainClass == "pt-4 md:pt-8 min-h-screen"
  {
    var hidden := IsHideHeader(path);
    Frame(!hidden, MainClass(hidden))
  }

  /** Hiding depends only on a prefix of the path: every extension of a hiding path hides too. */
  lemma HideHeaderExtends(path: string, more: string)
    requires IsHideHeader(path)
    ensures IsHideHeader(path + more)
  {
    var p := path + more;
    if IsPuzzlePage(path) {
      assert p[..9] == path[..9];
    } else {
      assert p[..7] == path[..7];
    }
  }

  /**
   * Both links of the bar lead to pages without the bar, while the home page,
   * the bare puzzles path, the forehead game and the leaderboard keep it; the
   * emoji prefix also covers the solutions page.
   */
  lemma WhereTheBarShows()
    ensures !Render(PuzzleLink).showNav && !Render(EmojiLink).showNav
    ensures !Render("/emojis/solutions").showNav
    ensures Render("/").showNav && Render("/puzzles").showNav
    ensures Render("/forehead").showNav && Render("/leaderboard").showNav
  {
    assert PuzzleLink[..9] == "/puzzles/";
    assert EmojiLink[..7] == "/emojis";
    var solutions: string := "/emojis/solutions";
    var forehead: string := "/forehead";
    var board: string := "/leaderboard";
    assert solutions[..7] == "/emojis";
    assert forehead[..7] != "/emojis" && forehead[1] == 'f';
    assert board[..7] != "/emojis" && board[1] == 'l';
  }
}
