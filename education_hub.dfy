/** `frontend/src/components/EducationHub.tsx`: the six courses, the category tabs with
    their counts, the category filter, the completed and in-progress counters, the total
    hours read from the duration strings, the action button of a course card and its
    topic chips. */
module EducationHub {
  import opened Wrappers
  import Seqs
  import Histogram
  import Decimal
  import Text

  datatype Course = Course(id: nat, title: string, category: string, level: string,
                           duration: string, progress: int, topics: seq<string>)

  const Courses: seq<Course> := [
    Course(1, "Forest Restoration Fundamentals", "restoration", "beginner", "4 hours", 0,
           ["Site Assessment", "Native Species", "Planting Techniques", "Monitoring Methods"]),
    Course(2, "Climate Change Adaptation Strategies", "climate", "intermediate", "6 hours", 35,
           ["Climate Science", "Vulnerability Assessment", "Adaptation Planning", "Implementation"]),
    Course(3, "Biodiversity Conservation Methods", "biodiversity", "advanced", "8 hours", 0,
           ["Species Monitoring", "Habitat Management", "Conservation Genetics", "Protected Areas"]),
    Course(4, "Sustainable Agriculture Practices", "agriculture", "beginner", "5 hours", 60,
           ["Soil Health", "Crop Rotation", "Integrated Pest Management", "Water Conservation"]),
    Course(5, "Carbon Sequestration Science", "carbon", "intermediate", "7 hours", 0,
           ["Carbon Cycles", "Measurement Methods", "Forest Carbon", "Soil Carbon"]),
    Course(6, "Community Engagement in Conservation", "community", "beginner", "3 hours", 100,
           ["Stakeholder Mapping", "Communication Strategies", "Participatory Methods", "Conflict Resolution"])
  ]

  // ---------------------------------------------------------------------------------
  // Category tabs and the category filter
  // ---------------------------------------------------------------------------------

  datatype CategoryTab = CategoryTab(id: string, name: string, count: nat)

  /** The six categories after "all", with their tab names. */
  const CategoryNames: seq<(string, string)> := [
    ("restoration", "Forest Restoration"),
    ("climate", "Climate Action"),
    ("biodiversity", "Biodiversity"),
    ("agriculture", "Sustainable Agriculture"),
    ("carbon", "Carbon Management"),
    ("community", "Community Engagement")
  ]

  function CategoryOf(c: Course): string {
    c.category
  }

  function InCategory(category: string): Course -> bool {
    (c: Course) => c.category == category
  }

  /** `categories`: "all" with the number of courses, then one tab per category with the
      number of courses in it. */
  function CategoryTabs(courses: seq<Course>): (r: seq<CategoryTab>)
    ensures |r| == 7
    ensures r[0] == CategoryTab("all", "All Courses", |courses|)
    ensures forall k :: 1 <= k < 7 ==>
              r[k].id == CategoryNames[k - 1].0 && r[k].name == CategoryNames[k - 1].1
  {
    [CategoryTab("all", "All Courses", |courses|)] +
    seq(6, k requires 0 <= k < 6 =>
      CategoryTab(CategoryNames[k].0, CategoryNames[k].1, |Seqs.Filter(courses, InCategory(CategoryNames[k].0))|))
  }

  /** Each tab counts the courses of its category, as many as the filter shows for it; the
      "all" tab counts every course. */
  lemma CategoryCounts(courses: seq<Course>, k: nat)
    requires 1 <= k < 7
    ensures CategoryTabs(courses)[k].count == Histogram.Count(Histogram.Keys(courses, CategoryOf), CategoryNames[k - 1].0)
    ensures CategoryTabs(courses)[k].count == |FilteredCourses(courses, CategoryNames[k - 1].0)|
    ensures CategoryTabs(courses)[0].count == |FilteredCourses(courses, "all")|
  {
    var category := CategoryNames[k - 1].0;
    var count := |Seqs.Filter(courses, InCategory(category))|;
    assert CategoryTabs(courses)[k].count == count;
    assert count == Histogram.Count(Histogram.Keys(courses, CategoryOf), category) by {
      Histogram.FilterCount(courses, InCategory(category), CategoryOf, category);
    }
    assert count == |FilteredCourses(courses, category)| by {
      assert category != "all";
      Seqs.FilterSameTest(courses, Shown(category), InCategory(category));
    }
    Seqs.FilterAll(courses, Shown("all"));
  }

  function Shown(selectedCategory: string): Course -> bool {
    (c: Course) => selectedCategory == "all" || c.category == selectedCategory
  }

  /** `filteredCourses`. */
  function FilteredCourses(courses: seq<Course>, selectedCategory: string): (r: seq<Course>)
    ensures Seqs.IsSubsequence(r, courses)
    ensures selectedCategory != "all" ==> forall i :: 0 <= i < |r| ==> r[i].category == selectedCategory
    ensures forall i :: 0 <= i < |courses| && (selectedCategory == "all" || courses[i].category == selectedCategory)
              ==> courses[i] in r
  {
    Seqs.FilterMembers(courses, Shown(selectedCategory));
    Seqs.Filter(courses, Shown(selectedCategory))
  }

  /** "all" shows every course, in order. */
  lemma AllShowsEveryCourse(courses: seq<Course>)
    ensures FilteredCourses(courses, "all") == courses
  {
    Seqs.FilterAll(courses, Shown("all"));
  }

  const CourseCategories := ["restoration", "climate", "biodiversity", "agriculture", "carbon", "community"]

  /** The six courses are in the six categories, one each. */
  lemma CoursesByCategory()
    ensures Histogram.Keys(Courses, CategoryOf) == CourseCategories
  {
  }

  /** Courses one to a category make every tab but "all" count one. */
  lemma OneCoursePerCategory(courses: seq<Course>, k: nat)
    requires Histogram.Keys(courses, CategoryOf) == CourseCategories
    requires 1 <= k < 7
    ensures CategoryTabs(courses)[k].count == 1
    ensures CategoryTabs(courses)[0].count == 6
  {
    CategoryCounts(courses, k);
    var j := k - 1;
    assert CategoryNames[j].0 == CourseCategories[j];
    assert Histogram.Count(CourseCategories, CourseCategories[j]) == 1 by {
      CategoriesDistinct(j);
      CountOnce(CourseCategories, j);
    }
  }

  lemma CategoriesDistinct(j: nat)
    requires j < 6
    ensures forall i :: 0 <= i < 6 && i != j ==> CourseCategories[i] != CourseCategories[j]
  {
    var s := CourseCategories;
    assert s[0][0] == 'r' && s[1][..2] == "cl" && s[2][0] == 'b';
    assert s[3][0] == 'a' && s[4][..2] == "ca" && s[5][..2] == "co";
  }

  /** A key that occurs at one place only is counted once. */
  lemma {:induction false} CountOnce(s: seq<string>, j: nat)
    requires j < |s|
    requires forall i :: 0 <= i < |s| && i != j ==> s[i] != s[j]
    ensures Histogram.Count(s, s[j]) == 1
  {
    var init := s[..|s| - 1];
    if j == |s| - 1 {
      assert s[j] !in init;
    } else {
      assert init[j] == s[j];
      CountOnce(init, j);
    }
  }

  // ---------------------------------------------------------------------------------
  // Progress counters and the action button
  // ---------------------------------------------------------------------------------

  function Completed(): Course -> bool {
    (c: Course) => c.progress == 100
  }

  function InProgress(): Course -> bool {
    (c: Course) => c.progress > 0 && c.progress < 100
  }

  /** `completedCourses` and `inProgressCourses`. */
  function CompletedCount(courses: seq<Course>): (r: nat)
    ensures r <= |courses|
  {
    |Seqs.Filter(courses, Completed())|
  }

  function InProgressCount(courses: seq<Course>): (r: nat)
    ensures r <= |courses|
  {
    |Seqs.Filter(courses, InProgress())|
  }

  /** No course is both completed and in progress, so the two counters never add up to
      more than the courses. For the six courses they are one and two. */
  lemma ProgressCounters(courses: seq<Course>)
    ensures CompletedCount(courses) + InProgressCount(courses) <= |courses|
  {
    Seqs.FilterDisjointLengths(courses, Completed(), InProgress());
  }

  /** The six courses: one completed, two in progress. */
  lemma CoursesByProgress()
    ensures Histogram.Keys(Courses, Completed()) == [false, false, false, false, false, true]
    ensures Histogram.Keys(Courses, InProgress()) == [false, true, false, true, false, false]
  {
  }

  lemma CourseCounters(courses: seq<Course>)
    requires Histogram.Keys(courses, Completed()) == [false, false, false, false, false, true]
    requires Histogram.Keys(courses, InProgress()) == [false, true, false, true, false, false]
    ensures CompletedCount(courses) == 1 && InProgressCount(courses) == 2
  {
    Histogram.FilterCount(courses, Completed(), Completed(), true);
    Histogram.FilterCount(courses, InProgress(), InProgress(), true);
    CountTrue([false, false, false, false, false, true]);
    CountTrue([false, true, false, true, false, false]);
  }

  function Trues(s: seq<bool>): nat {
    if s == [] then 0 else (if s[0] then 1 else 0) + Trues(s[1..])
  }

  lemma {:induction false} CountTrue(s: seq<bool>)
    ensures Histogram.Count(s, true) == Trues(s)
  {
    if s != [] {
      CountTrue(s[1..]);
      CountSplitHead(s);
    }
  }

  lemma {:induction false} CountSplitHead(s: seq<bool>)
    requires s != []
    ensures Histogram.Count(s, true) == (if s[0] then 1 else 0) + Histogram.Count(s[1..], true)
  {
    if |s| > 1 {
      var init := s[..|s| - 1];
      assert init[1..] == s[1..][..|s[1..]| - 1];
      CountSplitHead(init);
    }
  }

  const StartCourse := "Start Course"
  const ViewCertificate := "View Certificate"
  const ContinueLearning := "Continue Learning"

  /** The action button: start at no progress, the certificate at 100, otherwise go on. */
  function ActionLabel(progress: int): (r: string)
    ensures r == StartCourse <==> progress == 0
    ensures r == ViewCertificate <==> progress == 100
    ensures r == ContinueLearning <==> progress != 0 && progress != 100
  {
    if progress == 0 then StartCourse
    else if progress == 100 then ViewCertificate
    else ContinueLearning
  }

  /** The button agrees with the counters: a completed course offers its certificate, a
      course in progress offers to continue. */
  lemma ActionLabelMatchesCounters(c: Course)
    ensures Completed()(c) <==> ActionLabel(c.progress) == ViewCertificate
    ensures InProgress()(c) ==> ActionLabel(c.progress) == ContinueLearning
  {
  }

  // ---------------------------------------------------------------------------------
  // Level badge and achievements
  // ---------------------------------------------------------------------------------

  const BeginnerStyle := "bg-emerald-500/20 text-emerald-400"
  const IntermediateStyle := "bg-amber-500/20 text-amber-400"
  const AdvancedStyle := "bg-red-500/20 text-red-400"
  const DefaultLevelStyle := "bg-slate-500/20 text-slate-400"

  const Levels: set<string> := {"beginner", "intermediate", "advanced"}

  /** `getLevelColor`: the badge of each of the three levels, slate for any other. */
  function LevelColor(level: string): (r: string)
    ensures r == DefaultLevelStyle <==> level !in Levels
    ensures level == "beginner" ==> r == BeginnerStyle
    ensures level == "intermediate" ==> r == IntermediateStyle
    ensures level == "advanced" ==> r == AdvancedStyle
  {
    if level == "beginner" then BeginnerStyle
    else if level == "intermediate" then IntermediateStyle
    else if level == "advanced" then AdvancedStyle
    else DefaultLevelStyle
  }

  /** Every one of the six courses has a level with a badge of its own. */
  lemma CourseLevelsKnown()
    ensures forall i :: 0 <= i < |Courses| ==> LevelColor(Courses[i].level) != DefaultLevelStyle
  {
  }

  datatype Achievement = Achievement(id: nat, title: string, earned: bool)

  const Achievements: seq<Achievement> := [
    Achievement(1, "Forest Guardian", true),
    Achievement(2, "Climate Champion", true),
    Achievement(3, "Biodiversity Expert", false),
    Achievement(4, "Carbon Calculator", false),
    Achievement(5, "Community Leader", true),
    Achievement(6, "Sustainability Scholar", false)
  ]

  function Earned(): Achievement -> bool {
    (a: Achievement) => a.earned
  }

  /** `achievements.filter(a => a.earned).length`. */
  function EarnedCount(achievements: seq<Achievement>): (r: nat)
    ensures r <= |achievements|
  {
    |Seqs.Filter(achievements, Earned())|
  }

  /** Three of the six achievements are earned. */
  lemma ThreeAchievementsEarned()
    ensures EarnedCount(Achievements) == 3
  {
    assert Histogram.Keys(Achievements, Earned()) == [true, true, false, false, true, false];
    Histogram.FilterCount(Achievements, Earned(), Earned(), true);
    CountTrue([true, true, false, false, true, false]);
  }

  // ---------------------------------------------------------------------------------
  // Total hours
  // ---------------------------------------------------------------------------------

  function DurationOf(c: Course): string {
    c.duration
  }

  /** `parseInt(course.duration)`, without a radix: the number the duration starts
      with, in base 16 after a "0x" prefix; `None` for `NaN`. */
  function DurationHours(c: Course): Option<int> {
    Decimal.ParseIntDefaultRadix(c.duration)
  }

  /** One step of `totalHours`: `acc + parseInt(course.duration)`; `NaN` absorbs every
      later sum. */
  function AddHours(acc: Option<int>, hours: Option<int>): Option<int> {
    if acc.Some? && hours.Some? then Some(acc.value + hours.value) else None
  }

  function HoursFrom(acc: Option<int>, hours: seq<Option<int>>): Option<int>
    decreases hours
  {
    if hours == [] then acc else HoursFrom(AddHours(acc, hours[0]), hours[1..])
  }

  /** `totalHours`: the `reduce` from 0 over the hours of the courses. */
  function TotalHours(courses: seq<Course>): Option<int> {
    HoursFrom(Some(0), Histogram.Keys(courses, DurationHours))
  }

  /** The sum of the hours, when every one is a number. */
  function SumHours(hours: seq<Option<int>>): Option<int> {
    if hours == [] then Some(0) else AddHours(hours[0], SumHours(hours[1..]))
  }

  lemma {:induction false} HoursFromSum(acc: Option<int>, hours: seq<Option<int>>)
    ensures HoursFrom(acc, hours) == AddHours(acc, SumHours(hours))
    decreases hours
  {
    if hours != [] {
      HoursFromSum(AddHours(acc, hours[0]), hours[1..]);
    }
  }

  lemma {:induction false} SumHoursNaN(hours: seq<Option<int>>)
    ensures SumHours(hours).None? <==> exists i :: 0 <= i < |hours| && hours[i].None?
  {
    if hours != [] {
      SumHoursNaN(hours[1..]);
      if exists i :: 0 <= i < |hours[1..]| && hours[1..][i].None? {
        var i :| 0 <= i < |hours[1..]| && hours[1..][i].None?;
        assert hours[i + 1].None?;
      }
      if exists i :: 0 <= i < |hours| && hours[i].None? {
        var i :| 0 <= i < |hours| && hours[i].None?;
        if i > 0 {
          assert hours[1..][i - 1].None?;
        }
      }
    }
  }

  /** `totalHours` adds up the hours every duration starts with, and is `NaN` exactly
      when some duration does not start with a number. */
  lemma TotalHoursIsSum(courses: seq<Course>)
    ensures TotalHours(courses) == SumHours(Histogram.Keys(courses, DurationHours))
    ensures TotalHours(courses).None? <==>
              exists i :: 0 <= i < |courses| && DurationHours(courses[i]).None?
  {
    ReduceHours(Histogram.Keys(courses, DurationHours));
    NaNAmongDurations(courses);
  }

  /** The `reduce` from 0 is the sum. */
  lemma ReduceHours(hours: seq<Option<int>>)
    ensures HoursFrom(Some(0), hours) == SumHours(hours)
  {
    HoursFromSum(Some(0), hours);
  }

  /** The sum of the hours is `NaN` exactly when some duration reads as `NaN`. */
  lemma NaNAmongDurations(courses: seq<Course>)
    ensures SumHours(Histogram.Keys(courses, DurationHours)).None? <==>
              exists i :: 0 <= i < |courses| && DurationHours(courses[i]).None?
  {
    var hours := Histogram.Keys(courses, DurationHours);
    SumHoursNaN(hours);
    if exists i :: 0 <= i < |courses| && DurationHours(courses[i]).None? {
      var i :| 0 <= i < |courses| && DurationHours(courses[i]).None?;
      assert hours[i].None?;
    }
  }

  /** A one-digit number of hours: "4 hours" reads as 4, with or without a radix. */
  lemma HoursOf(n: nat, duration: string)
    requires n < 10 && duration == [Decimal.DigitChar(n)] + " hours"
    ensures Decimal.ParseIntDefaultRadix(duration) == Some(n)
    ensures Decimal.ParseInt(duration) == Some(n)
  {
    Decimal.ParseIntOfDecimal(n, " hours");
    assert duration[0] == Decimal.DigitChar(n) && duration[1] == ' ';
    Decimal.DigitStartIsDecimal(duration);
  }

  lemma CourseHours0()
    ensures DurationHours(Courses[0]) == Some(4)
  {
    HoursOf(4, Courses[0].duration);
  }

  lemma CourseHours1()
    ensures DurationHours(Courses[1]) == Some(6)
  {
    HoursOf(6, Courses[1].duration);
  }

  lemma CourseHours2()
    ensures DurationHours(Courses[2]) == Some(8)
  {
    HoursOf(8, Courses[2].duration);
  }

  lemma CourseHours3()
    ensures DurationHours(Courses[3]) == Some(5)
  {
    HoursOf(5, Courses[3].duration);
  }

  lemma CourseHours4()
    ensures DurationHours(Courses[4]) == Some(7)
  {
    HoursOf(7, Courses[4].duration);
  }

  lemma CourseHours5()
    ensures DurationHours(Courses[5]) == Some(3)
  {
    HoursOf(3, Courses[5].duration);
  }

  /** Durations of 4, 6, 8, 5, 7 and 3 hours add up to 33 hours. */
  lemma HoursAddUp(hours: seq<Option<int>>)
    requires |hours| == 6
    requires hours[0] == Some(4) && hours[1] == Some(6) && hours[2] == Some(8)
    requires hours[3] == Some(5) && hours[4] == Some(7) && hours[5] == Some(3)
    ensures HoursFrom(Some(0), hours) == Some(33)
  {
    var t := hours[1..];
    assert HoursFrom(Some(0), hours) == HoursFrom(Some(4), t);
    assert HoursFrom(Some(4), t) == HoursFrom(Some(10), t[1..]);
    assert HoursFrom(Some(10), t[1..]) == HoursFrom(Some(18), t[2..]);
    assert HoursFrom(Some(18), t[2..]) == HoursFrom(Some(23), t[3..]);
    assert HoursFrom(Some(23), t[3..]) == HoursFrom(Some(30), t[4..]);
    assert HoursFrom(Some(30), t[4..]) == HoursFrom(Some(33), t[5..]);
  }

  /** The six courses take 33 hours. */
  lemma CourseHours()
    ensures TotalHours(Courses) == Some(33)
  {
    CourseHours0(); CourseHours1(); CourseHours2();
    CourseHours3(); CourseHours4(); CourseHours5();
    HoursAddUp(Histogram.Keys(Courses, DurationHours));
  }

  // ---------------------------------------------------------------------------------
  // Topic chips
  // ---------------------------------------------------------------------------------

  /** The chips of a course card: the first three topics, and "+k more" for the rest
      when there are more than three. */
  datatype Chips = Chips(shown: seq<string>, more: Option<string>)

  function TopicChips(topics: seq<string>): (r: Chips)
    ensures |r.shown| <= 3 && r.shown <= topics
    ensures |r.shown| == if |topics| < 3 then |topics| else 3
    ensures r.more.Some? <==> |topics| > 3
    ensures r.more.Some? ==> r.more.value == "+" + Decimal.NatToString(|topics| - |r.shown|) + " more"
  {
    var shown := if |topics| < 3 then topics else topics[..3];
    Chips(shown, if |topics| > 3 then Some("+" + Decimal.NatToString(|topics| - 3) + " more") else None)
  }

  /** The number in "+k more" is read back as the number of topics not shown, so the
      chips account for every topic. */
  lemma ChipsAccountForEveryTopic(topics: seq<string>)
    requires |topics| > 3
    ensures var r := TopicChips(topics);
            Decimal.ParseInt(r.more.value[1..]) == Some(|topics| - |r.shown|)
  {
    var k := |topics| - 3;
    var text := "+" + Decimal.NatToString(k) + " more";
    assert text[1..] == Decimal.NatToString(k) + " more";
    Decimal.ParseIntOfDecimal(k, " more");
  }
}
