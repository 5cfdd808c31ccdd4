/**
 * The course catalogue page: a fixed list of courses filtered by a free-text
 * search and two drop-down selections, where "All" matches everything.
 */
module Courses {
  import opened Text
  import opened Types

  const MockCourses: seq<Course> := [
    Course("1", "Complete AI & Machine Learning Bootcamp",
           "Master artificial intelligence and machine learning from scratch with hands-on projects and real-world applications.",
           "Dr. Sarah Chen", "12 weeks", Beginner, "AI/ML", 299, 15420),
    Course("2", "Full-Stack Web Development",
           "Build modern web applications using React, Node.js, and MongoDB. Learn industry best practices.",
           "Mark Rodriguez", "16 weeks", Intermediate, "Development", 349, 12890),
    Course("3", "Data Science with Python",
           "Analyze data, create visualizations, and build predictive models using Python and its powerful libraries.",
           "Prof. Emily Watson", "10 weeks", Beginner, "Data Science", 279, 9650),
    Course("4", "Mobile App Development with React Native",
           "Create cross-platform mobile applications for iOS and Android using React Native.",
           "Alex Thompson", "14 weeks", Intermediate, "Mobile", 329, 7230)
  ]

  /** The options of the two drop-downs. */
  const Categories: seq<string> := ["All", "AI/ML", "Development", "Data Science", "Mobile"]
  const Levels: seq<string> := ["All", "Beginner", "Intermediate", "Advanced"]

  /** The page's three inputs. */
  datatype Query = Query(searchTerm: string, selectedCategory: string, selectedLevel: string)

  /** What the page starts with: an empty search and both selections at "All". */
  const InitialQuery := Query("", "All", "All")

  predicate MatchesSearch(c: Course, term: string) {
    Includes(Lower(c.title), Lower(term)) || Includes(Lower(c.description), Lower(term))
  }

  predicate MatchesCategory(c: Course, selected: string) {
    selected == "All" || c.category == selected
  }

  predicate MatchesLevel(c: Course, selected: string) {
    selected == "All" || LevelName(c.level) == selected
  }

  /** The test the page's filter applies to each course. */
  predicate Matches(c: Course, q: Query) {
    MatchesSearch(c, q.searchTerm) && MatchesCategory(c, q.selectedCategory) && MatchesLevel(c, q.selectedLevel)
  }

  /** `courses.filter(...)`: the matching courses, in their original order. */
  function Filter(courses: seq<Course>, q: Query): seq<Course> {
    if courses == [] then []
    else if Matches(courses[0], q) then [courses[0]] + Filter(courses[1..], q)
    else Filter(courses[1..], q)
  }

  /** The courses the page lists. */
  function FilteredCourses(q: Query): seq<Course> {
    Filter(MockCourses, q)
  }

  /** `r` is `s` with some elements removed and the rest in their original order. */
  ghost predicate IsSubsequence<T>(r: seq<T>, s: seq<T>) {
    if r == [] then true
    else if s == [] then false
    else (r[0] == s[0] && IsSubsequence(r[1..], s[1..])) || IsSubsequence(r, s[1..])
  }

  lemma {:induction false} SubsequenceNoLonger<T>(r: seq<T>, s: seq<T>)
    requires IsSubsequence(r, s)
    ensures |r| <= |s|
  {
    if r != [] {
      if r[0] == s[0] && IsSubsequence(r[1..], s[1..]) {
        SubsequenceNoLonger(r[1..], s[1..]);
      } else {
        SubsequenceNoLonger(r, s[1..]);
      }
    }
  }

  /** The result is an order-preserving selection from the input. */
  lemma {:induction false} FilterIsSubsequence(courses: seq<Course>, q: Query)
    ensures IsSubsequence(Filter(courses, q), courses)
    ensures |Filter(courses, q)| <= |courses|
  {
    if courses != [] {
      FilterIsSubsequence(courses[1..], q);
      var rest := Filter(courses[1..], q);
      if Matches(courses[0], q) {
        assert ([courses[0]] + rest)[1..] == rest;
      } else if rest != [] {
        assert IsSubsequence(rest, courses[1..]);
      }
    }
    SubsequenceNoLonger(Filter(courses, q), courses);
  }

  /** The page lists at most the four catalogue courses. */
  lemma AtMostFourListed(q: Query)
    ensures |FilteredCourses(q)| <= 4
  {
    FilterIsSubsequence(MockCourses, q);
  }

  /** A course is listed exactly when it is in the input and passes all three tests. */
  lemma {:induction false} FilterMembership(courses: seq<Course>, q: Query, c: Course)
    ensures c in Filter(courses, q) <==> c in courses && Matches(c, q)
  {
    if courses != [] {
      FilterMembership(courses[1..], q, c);
      assert courses == [courses[0]] + courses[1..];
    }
  }

  /** Every course of the input passes the tests exactly when the filter returns the input unchanged. */
  lemma {:induction false} FilterKeepsAll(courses: seq<Course>, q: Query)
    ensures Filter(courses, q) == courses <==> forall c :: c in courses ==> Matches(c, q)
  {
    if courses != [] {
      FilterKeepsAll(courses[1..], q);
      FilterIsSubsequence(courses[1..], q);
      if !Matches(courses[0], q) {
        assert |Filter(courses, q)| < |courses|;
      } else {
        assert courses == [courses[0]] + courses[1..];
      }
    }
  }

  /** The initial query lists the whole catalogue: the empty term is found in every text. */
  lemma InitialQueryListsEverything()
    ensures FilteredCourses(InitialQuery) == MockCourses
  {
    forall c | c in MockCourses ensures Matches(c, InitialQuery) {
      assert Lower("") == "";
      IncludesEmpty(Lower(c.title));
    }
    FilterKeepsAll(MockCourses, InitialQuery);
  }

  /** A selected category other than "All" lists only courses of that category; likewise for level. */
  lemma SelectionsRestrict(courses: seq<Course>, q: Query)
    ensures q.selectedCategory != "All" ==>
              forall c :: c in Filter(courses, q) ==> c.category == q.selectedCategory
    ensures q.selectedLevel != "All" ==>
              forall c :: c in Filter(courses, q) ==> LevelName(c.level) == q.selectedLevel
  {
    forall c | c in Filter(courses, q) ensures Matches(c, q) {
      FilterMembership(courses, q, c);
    }
  }

  /** No catalogue course is at the advanced level, so selecting it lists nothing. */
  lemma AdvancedListsNothing(q: Query)
    requires q.selectedLevel == "Advanced"
    ensures FilteredCourses(q) == []
  {
    assert forall c :: c in MockCourses ==> c.level != Advanced;
    if FilteredCourses(q) != [] {
      FilterMembership(MockCourses, q, FilteredCourses(q)[0]);
    }
  }

  /**
   * Each level option other than "All" is the name of a level, and every level
   * can be selected; so a level selection restricts by exactly one level.
   */
  lemma LevelOptionsAreLevels()
    ensures Levels[0] == "All"
    ensures forall l :: LevelName(l) in Levels
    ensures forall i :: 1 <= i < |Levels| ==> exists l :: LevelName(l) == Levels[i]
  {
    assert LevelName(Beginner) == Levels[1];
    assert LevelName(Intermediate) == Levels[2];
    assert LevelName(Advanced) == Levels[3];
  }

  /** Every category offered by the drop-down, with an empty search and the level at "All", lists at least one course. */
  lemma OfferedCategoryListsSomething(category: string)
    requires category in Categories
    ensures FilteredCourses(Query("", category, "All")) != []
  {
    var q := Query("", category, "All");
    var c := if category == "All" || category == "AI/ML" then MockCourses[0]
             else if category == "Development" then MockCourses[1]
             else if category == "Data Science" then MockCourses[2]
             else MockCourses[3];
    assert c in MockCourses && MatchesCategory(c, category);
    assert Lower("") == "";
    IncludesEmpty(Lower(c.title));
    FilterMembership(MockCourses, q, c);
  }

  /** "No courses found" is shown exactly when no catalogue course passes the tests. */
  predicate NoCoursesMessageShown(q: Query) {
    |FilteredCourses(q)| == 0
  }

  lemma NoCoursesMessageIff(q: Query)
    ensures NoCoursesMessageShown(q) <==> forall c :: c in MockCourses ==> !Matches(c, q)
  {
    if !NoCoursesMessageShown(q) {
      FilterMembership(MockCourses, q, FilteredCourses(q)[0]);
    }
    forall c | c in MockCourses && Matches(c, q) ensures !NoCoursesMessageShown(q) {
      FilterMembership(MockCourses, q, c);
    }
  }

  /** The search ignores the case of the search term: an upper-cased term lists the same courses. */
  lemma {:induction false} SearchIgnoresCase(courses: seq<Course>, q: Query)
    ensures Filter(courses, q.(searchTerm := Upper(q.searchTerm))) == Filter(courses, q)
  {
    LowerOfUpper(q.searchTerm);
    if courses != [] {
      SearchIgnoresCase(courses[1..], q);
    }
  }

  /** More generally, two terms with the same lower-case form list the same courses. */
  lemma {:induction false} SameLowerSameResult(courses: seq<Course>, q: Query, term: string)
    requires Lower(term) == Lower(q.searchTerm)
    ensures Filter(courses, q.(searchTerm := term)) == Filter(courses, q)
  {
    if courses != [] {
      SameLowerSameResult(courses[1..], q, term);
    }
  }
}
