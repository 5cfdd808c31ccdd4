/** The application shell: the start-up dark-mode decision and the page dispatch. */
module App {
  import opened Wrappers
  import Navigation

  /** JavaScript truthiness of a stored string: `null` and `""` are both falsy. */
  predicate Truthy(v: Option<string>) {
    v.Some? && v.value != ""
  }

  /**
   * Whether start-up adds the `dark` class, from the stored `theme` entry and
   * the `(prefers-color-scheme: dark)` media query.
   */
  predicate StartsDark(saved: Option<string>, prefersDark: bool) {
    saved == Some("dark") || (!Truthy(saved) && prefersDark)
  }

  /**
   * The decision as a table: a stored "dark" wins; a missing or empty entry
   * defers to the operating system; any other stored value keeps the class off.
   */
  lemma StartsDarkCases(saved: Option<string>, prefersDark: bool)
    ensures saved == Some("dark") ==> StartsDark(saved, prefersDark)
    ensures (saved == None || saved == Some("")) ==> (StartsDark(saved, prefersDark) <==> prefersDark)
    ensures saved.Some? && saved.value != "" && saved.value != "dark" ==> !StartsDark(saved, prefersDark)
  {
  }

  /** A stored "light" keeps the class off even when the system prefers dark. */
  lemma StoredLightBlocksSystemPreference()
    ensures !StartsDark(Some("light"), true)
  {
  }

  /** The document root and its class list. */
  class DocumentRoot {
    var classList: set<string>

    constructor (classes: set<string>)
      ensures classList == classes
    {
      classList := classes;
    }
  }

  /** The start-up effect: it may add `dark` and never removes anything. */
  method InitializeTheme(root: DocumentRoot, saved: Option<string>, prefersDark: bool)
    modifies root
    ensures root.classList == if StartsDark(saved, prefersDark) then old(root.classList) + {"dark"}
                              else old(root.classList)
    ensures old(root.classList) <= root.classList && root.classList - old(root.classList) <= {"dark"}
  {
    if saved == Some("dark") || (!Truthy(saved) && prefersDark) {
      root.classList := root.classList + {"dark"};
    }
  }

  /** The page component shown in the main area. */
  datatype View = HomePage | AboutPage | CoursesPage | ContactPage | DashboardView | LoginPage

  /** `renderPage`: one component per page; the `match` covers every `Page`, so the `default` arm is never needed. */
  function RenderPage(p: Navigation.Page): View {
    match p
    case Home => HomePage
    case About => AboutPage
    case Courses => CoursesPage
    case Contact => ContactPage
    case Dashboard => DashboardView
    case Login => LoginPage
  }

  /** Each page has its own component: distinct pages render distinct views. */
  lemma RenderPageInjective(p: Navigation.Page, q: Navigation.Page)
    ensures RenderPage(p) == RenderPage(q) <==> p == q
  {
  }

  /** Every view is rendered for some page. */
  lemma RenderPageOnto(v: View)
    ensures exists p :: RenderPage(p) == v
  {
    match v
    case HomePage => assert RenderPage(Navigation.Home) == v;
    case AboutPage => assert RenderPage(Navigation.About) == v;
    case CoursesPage => assert RenderPage(Navigation.Courses) == v;
    case ContactPage => assert RenderPage(Navigation.Contact) == v;
    case DashboardView => assert RenderPage(Navigation.Dashboard) == v;
    case LoginPage => assert RenderPage(Navigation.Login) == v;
  }
}
