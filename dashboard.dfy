/** The learner dashboard: the sign-in gate, the headline statistics and the tab selector. */
module Dashboard {
  import opened Wrappers
  import opened Types
  import Navigation

  /** A headline statistic card; `title` is the card's `label` (a reserved word in Dafny). */
  datatype Stat = Stat(title: string, value: int)

  /** The fixed figure shown as study hours. */
  const StudyHours := 156

  /** The four cards, derived from the signed-in user. */
  function Stats(u: User): seq<Stat> {
    [ Stat("Enrolled Courses", u.enrolledCourses),
      Stat("Completed", u.completedCourses),
      Stat("In Progress", u.enrolledCourses - u.completedCourses),
      Stat("Study Hours", StudyHours) ]
  }

  /**
   * The cards show the user's own counters, and the courses in progress and
   * the completed ones add up to the enrolled ones.
   */
  lemma StatsAccount(u: User)
    ensures |Stats(u)| == 4
    ensures Stats(u)[0].value == u.enrolledCourses && Stats(u)[1].value == u.completedCourses
    ensures Stats(u)[1].value + Stats(u)[2].value == Stats(u)[0].value
  {
  }

  /** "In Progress" is non-negative exactly when no more courses are completed than enrolled. */
  lemma InProgressNonNegativeIff(u: User)
    ensures Stats(u)[2].value >= 0 <==> u.completedCourses <= u.enrolledCourses
  {
  }

  /** Nothing in the record type rules out a negative "In Progress" figure. */
  lemma InProgressCanBeNegative()
    ensures exists u: User :: Stats(u)[2].value < 0
  {
    var u := User("u", "n", "e", None, Student, 0, 1, "d");
    assert Stats(u)[2].value == -1;
  }

  /** What the dashboard component produces on one render. */
  datatype Rendered = Redirected | Shown(stats: seq<Stat>)

  /**
   * One render of the dashboard: without a user it navigates to the login
   * page and shows nothing; with one it shows the user's statistics and
   * leaves the page alone.
   */
  method Render(user: Option<User>, nav: Navigation.Navigator) returns (out: Rendered)
    modifies nav
    ensures user.None? ==> out == Redirected && nav.currentPage == Navigation.Login
    ensures user.Some? ==> out == Shown(Stats(user.value)) && nav.currentPage == old(nav.currentPage)
  {
    if user.None? {
      nav.NavigateTo(Navigation.Login);
      return Redirected;
    }
    out := Shown(Stats(user.value));
  }

  /** The page that stays current once a request for `requested` has been rendered. */
  function EffectivePage(requested: Navigation.Page, user: Option<User>): Navigation.Page {
    if requested == Navigation.Dashboard && user.None? then Navigation.Login else requested
  }

  /** The gate: the dashboard is never the effective page without a user, and no other request is affected. */
  lemma GateHolds(requested: Navigation.Page, user: Option<User>)
    ensures EffectivePage(requested, user) == Navigation.Dashboard ==> user.Some?
    ensures user.Some? || requested != Navigation.Dashboard ==> EffectivePage(requested, user) == requested
  {
  }

  /**
   * A request for page `p`: the router moves there, and when it is the
   * dashboard, that render runs the gate.  The router ends on the effective page.
   */
  method Request(nav: Navigation.Navigator, user: Option<User>, p: Navigation.Page)
    modifies nav
    ensures nav.currentPage == EffectivePage(p, user)
  {
    nav.NavigateTo(p);
    if p == Navigation.Dashboard {
      var shown := Render(user, nav);
    }
  }

  /**
   * Navigating to the dashboard and rendering it: signed out, the router ends
   * on the login page; signed in, it stays on the dashboard.
   */
  method OpenDashboard(nav: Navigation.Navigator, user: Option<User>) returns (out: Rendered)
    modifies nav
    ensures nav.currentPage == EffectivePage(Navigation.Dashboard, user)
    ensures out.Shown? <==> user.Some?
  {
    nav.NavigateTo(Navigation.Dashboard);
    out := Render(user, nav);
  }

  /** The four tabs, by their ids `overview`, `courses`, `schedule`, `goals`. */
  datatype Tab = Overview | MyCourses | Schedule | Goals

  const AllTabs: seq<Tab> := [Overview, MyCourses, Schedule, Goals]

  function TabId(t: Tab): string {
    match t
    case Overview => "overview"
    case MyCourses => "courses"
    case Schedule => "schedule"
    case Goals => "goals"
  }

  /** The four tab ids are distinct. */
  lemma TabIdInjective(a: Tab, b: Tab)
    ensures TabId(a) == TabId(b) <==> a == b
  {
  }

  /** The panel for `panel` renders when `activeTab === panel`'s id. */
  predicate PanelShown(activeTab: Tab, panel: Tab) {
    TabId(activeTab) == TabId(panel)
  }

  /** The panels among `tabs` that are on screen, in page order. */
  function PanelsAmong(tabs: seq<Tab>, activeTab: Tab): seq<Tab> {
    if tabs == [] then []
    else (if PanelShown(activeTab, tabs[0]) then [tabs[0]] else []) + PanelsAmong(tabs[1..], activeTab)
  }

  function ShownPanels(activeTab: Tab): seq<Tab> {
    PanelsAmong(AllTabs, activeTab)
  }

  /** Whichever tab is active, exactly its panel is on screen. */
  lemma ExactlyOnePanel(activeTab: Tab)
    ensures ShownPanels(activeTab) == [activeTab]
  {
    var t := AllTabs;
    assert PanelsAmong(t[3..], activeTab) == if activeTab == Goals then [Goals] else [];
    assert PanelsAmong(t[2..], activeTab) == if activeTab == Schedule then [Schedule] else PanelsAmong(t[3..], activeTab);
    assert PanelsAmong(t[1..], activeTab) == if activeTab == MyCourses then [MyCourses] else PanelsAmong(t[2..], activeTab);
  }

  /** The tab selector state. */
  class TabBar {
    var activeTab: Tab

    constructor ()
      ensures activeTab == Overview
    {
      activeTab := Overview;
    }

    /** A click on a tab makes it the active one. */
    method Select(t: Tab)
      modifies this
      ensures activeTab == t
    {
      activeTab := t;
    }
  }
}
