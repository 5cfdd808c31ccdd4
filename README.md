# Course-platform front end: the state and logic behind the pages

This project models, in Dafny, the parts of the course-platform web front end
that hold behaviour rather than markup:

- **Contact page** (`Contact`): the four-field form, its per-field validation
  (a "required" check on the trimmed value and the e-mail pattern
  `^[^\s@]+@[^\s@]+\.[^\s@]+$`), the error record, and the submit state
  machine over `isSubmitting`, `isSubmitted` and the form. The class
  `ContactPage` holds that state; `handleSubmit` is split into the event that
  starts a submission (`BeginSubmit`) and the event that ends it after the
  simulated delay (`CompleteSubmit`); the button press (`PressSubmit`) is
  ignored while the button is disabled.
- **Course catalogue** (`Courses`): the four hard-coded courses and the filter
  that combines a case-insensitive substring search on title or description
  with category and level selections in which `"All"` is a wildcard.
- **Navigation** (`Navigation`): the six-value `Page` type and the single
  mutable slot `currentPage`, starting at `Home`, overwritten by `navigateTo`.
- **Application shell** (`App`): the start-up decision to add the `dark` class
  from the stored `theme` value and the system colour-scheme preference, the
  effect that adds it to the document root's class list, and `renderPage`.
- **Dashboard** (`Dashboard`): the redirect to the login page when no user is
  signed in, the four statistic cards derived from the user, and the
  four-tab selector.

Supporting modules: `Wrappers` (an `Option` type for `null`/`undefined`),
`Text` (ECMAScript whitespace, `trim`, ASCII case mapping and `includes`) and
`Types` (the `User`, `Course` and `ContactForm` records).

Two behaviours of the code are worth stating on their own:

- Of the stored values, only `"dark"` adds the class. A missing or empty
  stored value lets the system preference decide, and any other non-empty
  value (for instance `"light"`) keeps the class off even when the system
  prefers dark (`App.StartsDark`).
- Nothing in the record type or the dashboard requires
  `completedCourses <= enrolledCourses`, so the "In Progress" card can be
  negative (`Dashboard.InProgressCanBeNegative`).

## Model

| member | source | states |
|---|---|---|
| `Text.TrimEmptyIffAllWhitespace` | src/components/ContactPage.tsx:19-22 | `value.trim()` is empty (so the field counts as missing) exactly when every character is whitespace |
| `Text.IncludesIff` | src/components/CoursesPage.tsx:69-70 | the `includes` scan succeeds exactly when the needle occurs at some position of the text |
| `Text.IncludesEmpty` | src/components/CoursesPage.tsx:69-70 | the empty search term is found in every title and description |
| `Text.LowerOfUpper` | src/components/CoursesPage.tsx:69-70 | lower-casing an upper-cased string gives the lower-cased original |
| `Types.ContactForm.With` | src/components/ContactPage.tsx:51 | the spread update sets the named field to the new value and leaves the other three fields as they were |
| `Types.LevelNameInjective` | src/types/index.ts:18 | the three levels have three distinct names, so comparing names compares levels |
| `Contact.ValidEmailIffPattern` | src/components/ContactPage.tsx:24 | the computed e-mail check accepts exactly the strings of the form run `@` run `.` run, each run a non-empty string without whitespace or `@` |
| `Contact.PatternIsNotBlank` | src/components/ContactPage.tsx:20-24 | an address that matches the pattern is never blank, so it never gets "required" |
| `Contact.EmptyFormHasFourErrors` | src/components/ContactPage.tsx:16-29 | the empty form gets exactly four errors, one per field, each the field's "required" message |
| `Contact.RequiredIffWhitespaceOnly` | src/components/ContactPage.tsx:19-22 | name, subject and message get an error exactly when empty or whitespace-only, and it is their "required" message |
| `Contact.EmailErrorCases` | src/components/ContactPage.tsx:20-26 | the empty e-mail gets "required"; any other e-mail outside the pattern gets the format message, which overrides "required"; an e-mail in the pattern gets no error |
| `Contact.BlankEmailGetsFormatMessage` | src/components/ContactPage.tsx:20-26 | a non-empty, whitespace-only e-mail ends with the format message rather than "required" (the empty one gets "required", `Contact.EmailErrorCases`) |
| `Contact.MalformedEmailIsTheOnlyError` | src/components/ContactPage.tsx:16-29 | with the other fields filled, the e-mail `abc` leaves exactly one error, the format message on the e-mail |
| `Contact.ContactPage.constructor` | src/components/ContactPage.tsx:6-14 | the page starts with an empty form, no errors and both flags off |
| `Contact.ContactPage.ValidateForm` | src/components/ContactPage.tsx:16-30 | the stored error record is the field-by-field validation of the form, and the result is true exactly when that record is empty |
| `Contact.ContactPage.BeginSubmit` | src/components/ContactPage.tsx:32-37 | an invalid form leaves the form and both flags unchanged; a valid one sets `isSubmitting`; either way the errors are the validation of the form |
| `Contact.ContactPage.CompleteSubmit` | src/components/ContactPage.tsx:40-44 | completion clears `isSubmitting`, sets `isSubmitted`, and resets all four fields to empty |
| `Contact.ContactPage.ResetSuccess` | src/components/ContactPage.tsx:46-47 | the reset timer hides the success notice |
| `Contact.ContactPage.PressSubmit` | src/components/ContactPage.tsx:189-194 | while a submission is in flight the disabled button changes nothing; otherwise the press behaves as `BeginSubmit` |
| `Contact.ContactPage.HandleInputChange` | src/components/ContactPage.tsx:50-55 | the edited field takes the new value and only its error is cleared; other fields and errors are unchanged |
| `Contact.SubmitAndComplete` | src/components/ContactPage.tsx:32-44 | a valid submission followed by its completion leaves an empty form, the success flag on and the in-flight flag off; an invalid one changes neither form nor flags |
| `Courses.FilterIsSubsequence` | src/components/CoursesPage.tsx:68-75 | the filtered list is an order-preserving selection from the catalogue, no longer than it |
| `Courses.AtMostFourListed` | src/components/CoursesPage.tsx:5-75 | the page never lists more than the four catalogue courses |
| `Courses.FilterMembership` | src/components/CoursesPage.tsx:68-75 | a course is listed exactly when it is in the catalogue and matches the search, the category and the level |
| `Courses.FilterKeepsAll` | src/components/CoursesPage.tsx:68-75 | the filter returns its input unchanged exactly when every course matches |
| `Courses.InitialQueryListsEverything` | src/components/CoursesPage.tsx:61-75 | the initial empty search with both selections at "All" lists the whole catalogue |
| `Courses.SelectionsRestrict` | src/components/CoursesPage.tsx:71-72 | a category other than "All" lists only courses of that category, and likewise for the level |
| `Courses.LevelOptionsAreLevels` | src/components/CoursesPage.tsx:66-72 | the level drop-down offers "All" and the name of every level, and nothing else |
| `Courses.OfferedCategoryListsSomething` | src/components/CoursesPage.tsx:65-71 | with an empty search and the level at "All", every category the drop-down offers lists at least one catalogue course |
| `Courses.AdvancedListsNothing` | src/components/CoursesPage.tsx:5-75 | selecting "Advanced" lists nothing, since no catalogue course has that level |
| `Courses.NoCoursesMessageIff` | src/components/CoursesPage.tsx:199-205 | "No courses found" shows exactly when no catalogue course matches the query |
| `Courses.SearchIgnoresCase` | src/components/CoursesPage.tsx:69-70 | upper-casing the search term does not change the listed courses |
| `Courses.SameLowerSameResult` | src/components/CoursesPage.tsx:69-70 | two search terms with the same lower-case form list the same courses |
| `Navigation.PagesAreExactlySix` | src/hooks/useNavigation.ts:3 | there are exactly six distinct pages and every page is one of them |
| `Navigation.Navigator.constructor` | src/hooks/useNavigation.ts:6 | the router starts on the home page |
| `Navigation.Navigator.NavigateTo` | src/hooks/useNavigation.ts:8-10 | after `navigateTo(p)` the current page is `p`, whatever it was, including `p` itself |
| `Navigation.LastWriteWins` | src/hooks/useNavigation.ts:8-10 | after any non-empty run of navigations the current page is the last target |
| `Navigation.ReplayConcat` | src/hooks/useNavigation.ts:8-10 | a run of navigations may be split anywhere: there is no history beyond the current page |
| `Navigation.NavigateIdempotent` | src/hooks/useNavigation.ts:8-10 | navigating twice to the same page is the same as navigating once |
| `App.StartsDarkCases` | src/App.tsx:18-19 | a stored "dark" gives dark; a missing or empty stored value defers to the system preference; any other stored value gives no dark class |
| `App.StoredLightBlocksSystemPreference` | src/App.tsx:19 | a stored "light" keeps the class off even when the system prefers dark |
| `App.InitializeTheme` | src/App.tsx:16-22 | the start-up effect adds `dark` exactly when the decision says so and never removes a class |
| `App.RenderPageInjective` | src/App.tsx:24-41 | distinct pages render distinct components |
| `App.RenderPageOnto` | src/App.tsx:24-41 | every page component is rendered for some page |
| `Dashboard.StatsAccount` | src/components/Dashboard.tsx:30-35 | the cards show the user's enrolled and completed counts, and completed plus in-progress equals enrolled |
| `Dashboard.InProgressNonNegativeIff` | src/components/Dashboard.tsx:33 | "In Progress" is non-negative exactly when completed does not exceed enrolled |
| `Dashboard.InProgressCanBeNegative` | src/types/index.ts:7-8 | the record type admits a user whose "In Progress" figure is negative |
| `Dashboard.Render` | src/components/Dashboard.tsx:25-35 | with no user the dashboard navigates to login and shows nothing; with a user it shows that user's statistics and leaves the page alone |
| `Dashboard.GateHolds` | src/components/Dashboard.tsx:25-28 | the dashboard is never the effective page without a user, and no other request is redirected |
| `Dashboard.Request` | src/components/Dashboard.tsx:25-28 | a request for any page, followed by its render, leaves the router on the effective page: the page itself, except the dashboard without a user, which ends on login |
| `Dashboard.OpenDashboard` | src/components/Dashboard.tsx:25-28 | navigating to the dashboard and rendering it ends on login when signed out and on the dashboard when signed in |
| `Dashboard.TabIdInjective` | src/components/Dashboard.tsx:103-107 | the four tab ids are distinct |
| `Dashboard.ExactlyOnePanel` | src/components/Dashboard.tsx:129-261 | whichever tab is active, exactly its panel is shown |
| `Dashboard.TabBar.constructor` | src/components/Dashboard.tsx:23 | the active tab starts at `overview` |
| `Dashboard.TabBar.Select` | src/components/Dashboard.tsx:113 | a click on a tab makes it the active one |

## Left out

- Markup, styling, icons, images and copy, including the home and about components, which only call `navigateTo` with fixed pages.
- The header component: its two menu-open flags, and its buttons that call the theme toggle, sign-out (which also closes the menu) and `navigateTo`. Only `navigateTo` itself is modelled (`Navigation.Navigator`).
- The theme toggle, the sign-in and sign-out operations and the user record they produce: the theme and authentication contexts (`src/context/*`) are not part of this model. The dashboard takes the current user as a parameter.
- `localStorage`, `window.matchMedia` and the document's class list are parameters or a plain set of class names, not I/O.
- The 2000 ms submission delay and the 5000 ms success timer: they are the events `CompleteSubmit` and `ResetSuccess`, not time. Interleavings of several pending timers are not modelled.
- React's rendering semantics: re-render scheduling, hook rules, and the fact that the dashboard navigates during render. A render is one method call.
- The courses' floating-point rating and image, the price's locale formatting, and the hard-coded dashboard lists and contact details.
- Text.Lower: only the ASCII letters change case; `toLowerCase` also maps other Unicode letters, so case-insensitivity is proved for ASCII case only.
- Text.IsWhitespace: the space separators are those of the current Unicode standard, listed by code point; other Unicode versions may differ.
- Contact.ContactPage: a cleared error is removed from the error record, while the source stores `undefined` under that key; both read as "no error".
- Contact.ContactPage.PressSubmit: the browser's own constraint validation is left out. The form has no `noValidate`, so for a value such as `"abc"` the `type="email"` input stops the submit event before `handleSubmit` runs. The input's value sanitization also strips leading and trailing ASCII whitespace from the email. The model passes every enabled press to `handleSubmit` with the typed value unchanged.
- Types.User: the course counters are integers; the source's `number` type also admits fractional values, which are not modelled. Types.Course's price and student count are integers for the same reason.
- Dashboard.TabBar: the active tab is one of the four tab ids; the source holds an unconstrained string that only the tab buttons set.
