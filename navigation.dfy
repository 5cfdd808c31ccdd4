/** The in-memory page router: one slot holding the current page, overwritten on every navigation. */
module Navigation {

  /** The closed set of logical pages. */
  datatype Page = Home | About | Courses | Contact | Dashboard | Login

  const AllPages: seq<Page> := [Home, About, Courses, Contact, Dashboard, Login]

  /** The six pages are distinct and every page is one of them. */
  lemma PagesAreExactlySix(p: Page)
    ensures p in AllPages
    ensures |AllPages| == 6
    ensures forall i, j :: 0 <= i < j < |AllPages| ==> AllPages[i] != AllPages[j]
  {
    match p
    case Home =>
    case About =>
    case Courses =>
    case Contact =>
    case Dashboard =>
    case Login =>
  }

  /** The page reached from `start` by navigating to each of `targets` in turn. */
  function Replay(start: Page, targets: seq<Page>): Page
    decreases |targets|
  {
    if targets == [] then start else Replay(targets[0], targets[1..])
  }

  /** Last write wins: after a non-empty run of navigations the page is the last target, whatever came before. */
  lemma {:induction false} LastWriteWins(start: Page, targets: seq<Page>)
    requires targets != []
    ensures Replay(start, targets) == targets[|targets| - 1]
    decreases |targets|
  {
    if |targets| > 1 {
      LastWriteWins(targets[0], targets[1..]);
    }
  }

  /** There is no history: a run of navigations may be split anywhere and replayed in two parts. */
  lemma {:induction false} ReplayConcat(start: Page, xs: seq<Page>, ys: seq<Page>)
    ensures Replay(start, xs + ys) == Replay(Replay(start, xs), ys)
    decreases |xs|
  {
    if xs != [] {
      assert (xs + ys)[1..] == xs[1..] + ys;
      ReplayConcat(xs[0], xs[1..], ys);
    } else {
      assert xs + ys == ys;
    }
  }

  /** Navigating to the page already reached changes nothing. */
  lemma NavigateIdempotent(start: Page, targets: seq<Page>, p: Page)
    ensures Replay(start, targets + [p, p]) == Replay(start, targets + [p])
  {
    LastWriteWins(start, targets + [p, p]);
    LastWriteWins(start, targets + [p]);
  }

  /** The `useNavigation` state. */
  class Navigator {
    var currentPage: Page

    /** The application opens on the home page. */
    constructor ()
      ensures currentPage == Home
    {
      currentPage := Home;
    }

    /** `navigateTo`: an unconditional overwrite; any page, including the current one, is accepted. */
    method NavigateTo(page: Page)
      modifies this
      ensures currentPage == page
      ensures currentPage == Replay(old(currentPage), [page])
    {
      currentPage := page;
    }
  }
}
