/** What one attempt to load a course or a problem meets on the disk, and what a complete load
    makes of it. */
module CourseFiles {
  import opened Wrappers

  /** Milliseconds since the epoch. */
  type Time = int

  /** One file a load works on: its modification time, None if it is missing; whether reading and
      parsing it succeeds; whose last-modified time it counts for. */
  datatype File = File(mtime: Option<Time>, ok: bool, course: bool, problem: bool)

  /** What a course has besides its problems counts for the course alone. */
  type CourseFile = f: File | f.course && !f.problem witness File(None, false, true, false)

  datatype ProblemFiles = ProblemFiles(yamlTime: Option<Time>, yamlOk: bool, others: seq<File>, content: string)
  {
    /** problem.yaml comes first and counts for the course and for the problem. */
    function All(): seq<File> { [File(yamlTime, yamlOk, true, true)] + others }
  }

  datatype ProblemEntry = ProblemEntry(id: string, files: ProblemFiles)
  datatype ReadingFiles = ReadingFiles(id: string, files: seq<CourseFile>, text: string)
  datatype LessonFiles = LessonFiles(id: string, title: string, yaml: CourseFile, readings: seq<ReadingFiles>,
      problems: seq<ProblemEntry>)
  datatype SectionFiles = SectionFiles(id: string, title: string, yaml: CourseFile, lessons: seq<LessonFiles>)

  /** Without a `sections` key course.yaml itself lists the lessons. */
  datatype Layout = Sectioned(sections: seq<SectionFiles>) | Flat(lessons: seq<LessonFiles>)
  datatype CourseOnDisk = CourseOnDisk(title: string, description: string, files: seq<CourseFile>, layout: Layout)

  datatype ProblemData = ProblemData(id: string, content: string)
  datatype TextReading = TextReading(id: string, data: string)
  datatype Lesson = Lesson(id: string, name: string, readings: seq<TextReading>, problems: seq<ProblemData>)
  datatype Section = Section(id: string, name: string, lessons: seq<Lesson>)
  datatype CourseData = CourseData(id: string, description: string, sections: seq<Section>)

  // ---------------------------------------------------------------- all files of a load, in order

  function ReadingsFiles(readings: seq<ReadingFiles>): seq<File> {
    if readings == [] then [] else readings[0].files + ReadingsFiles(readings[1..])
  }

  function ProblemsFiles(problems: seq<ProblemEntry>): seq<File> {
    if problems == [] then [] else problems[0].files.All() + ProblemsFiles(problems[1..])
  }

  function LessonsFiles(lessons: seq<LessonFiles>): seq<File> {
    if lessons == [] then [] else [lessons[0].yaml] + InLesson(lessons[0]) + LessonsFiles(lessons[1..])
  }

  function InLesson(lesson: LessonFiles): seq<File> { ReadingsFiles(lesson.readings) + ProblemsFiles(lesson.problems) }

  function SectionsFiles(sections: seq<SectionFiles>): seq<File> {
    if sections == [] then [] else [sections[0].yaml] + LessonsFiles(sections[0].lessons) + SectionsFiles(sections[1..])
  }

  function LayoutFiles(layout: Layout): seq<File> {
    match layout
    case Sectioned(sections) => SectionsFiles(sections)
    case Flat(lessons) => LessonsFiles(lessons)
  }

  function CourseFilesOf(course: CourseOnDisk): seq<File> { course.files + LayoutFiles(course.layout) }

  /** While the course has no last-modified time its files are not looked up. */
  predicate FileOk(f: File, tracked: bool) {
    f.ok && (f.problem || (f.course && tracked) ==> f.mtime.Some?)
  }

  predicate AllOk(files: seq<File>, tracked: bool) { forall f | f in files :: FileOk(f, tracked) }

  predicate CourseSucceeds(course: CourseOnDisk) { AllOk(CourseFilesOf(course), true) }

  predicate SectionSucceeds(section: SectionFiles) { AllOk([section.yaml] + LessonsFiles(section.lessons), true) }

  /** The first section that cannot be loaded. */
  predicate IsFirstFailing(sections: seq<SectionFiles>, n: nat) {
    n < |sections| && !SectionSucceeds(sections[n]) && forall i | 0 <= i < n :: SectionSucceeds(sections[i])
  }

  lemma AllOkSplits(a: seq<File>, b: seq<File>, tracked: bool)
    ensures AllOk(a + b, tracked) <==> AllOk(a, tracked) && AllOk(b, tracked)
  {
    assert forall f | f in a :: f in a + b;
    assert forall f | f in b :: f in a + b;
  }

  // ---------------------------------------------------------------- which files those are

  /** The file is one of a problem, a lesson, a section, a course. */
  predicate ProblemHas(files: ProblemFiles, f: File) {
    f == File(files.yamlTime, files.yamlOk, true, true) || f in files.others
  }

  predicate LessonHas(lesson: LessonFiles, f: File) {
    || f == lesson.yaml
    || (exists k | 0 <= k < |lesson.readings| :: f in lesson.readings[k].files)
    || (exists k | 0 <= k < |lesson.problems| :: ProblemHas(lesson.problems[k].files, f))
  }

  predicate LessonsHave(lessons: seq<LessonFiles>, f: File) {
    exists j | 0 <= j < |lessons| :: LessonHas(lessons[j], f)
  }

  predicate SectionHas(section: SectionFiles, f: File) { f == section.yaml || LessonsHave(section.lessons, f) }

  predicate CourseHas(course: CourseOnDisk, f: File) {
    || f in course.files
    || match course.layout
       case Sectioned(sections) => exists i | 0 <= i < |sections| :: SectionHas(sections[i], f)
       case Flat(lessons) => LessonsHave(lessons, f)
  }

  /** A load looks at every file of the course, and at no other. */
  lemma FilesOfCourse(course: CourseOnDisk, f: File)
    ensures f in CourseFilesOf(course) <==> CourseHas(course, f)
  {
    match course.layout
    case Sectioned(sections) => SectionsFilesHave(sections, f);
    case Flat(lessons) => LessonsFilesHave(lessons, f);
  }

  lemma {:induction false} SectionsFilesHave(sections: seq<SectionFiles>, f: File)
    ensures f in SectionsFiles(sections) <==> exists i | 0 <= i < |sections| :: SectionHas(sections[i], f)
  {
    if sections != [] {
      SectionsFilesHave(sections[1..], f);
      LessonsFilesHave(sections[0].lessons, f);
      assert forall i | 0 < i < |sections| :: sections[i] == sections[1..][i - 1];
    }
  }

  lemma {:induction false} LessonsFilesHave(lessons: seq<LessonFiles>, f: File)
    ensures f in LessonsFiles(lessons) <==> LessonsHave(lessons, f)
  {
    if lessons != [] {
      LessonsFilesHave(lessons[1..], f);
      ReadingsFilesHave(lessons[0].readings, f);
      ProblemsFilesHave(lessons[0].problems, f);
      assert forall j | 0 < j < |lessons| :: lessons[j] == lessons[1..][j - 1];
    }
  }

  lemma {:induction false} ReadingsFilesHave(readings: seq<ReadingFiles>, f: File)
    ensures f in ReadingsFiles(readings) <==> exists k | 0 <= k < |readings| :: f in readings[k].files
  {
    if readings != [] {
      ReadingsFilesHave(readings[1..], f);
      assert forall k | 0 < k < |readings| :: readings[k] == readings[1..][k - 1];
    }
  }

  lemma {:induction false} ProblemsFilesHave(problems: seq<ProblemEntry>, f: File)
    ensures f in ProblemsFiles(problems) <==> exists k | 0 <= k < |problems| :: ProblemHas(problems[k].files, f)
  {
    if problems != [] {
      ProblemsFilesHave(problems[1..], f);
      assert forall k | 0 < k < |problems| :: problems[k] == problems[1..][k - 1];
    }
  }

  predicate Loads(f: File) { f.ok && (f.course || f.problem ==> f.mtime.Some?) }

  /** A course loads if and only if all its files are there and can be read and parsed; a file that
      counts for neither time need not be looked up. */
  lemma CourseSucceedsIff(course: CourseOnDisk)
    ensures CourseSucceeds(course) <==> forall f | CourseHas(course, f) :: Loads(f)
  {
    forall f ensures f in CourseFilesOf(course) <==> CourseHas(course, f) {
      FilesOfCourse(course, f);
    }
  }

  /** All files in front of section `n` load, and some file of it does not. */
  ghost predicate BreaksAt(sections: seq<SectionFiles>, n: nat) {
    && n < |sections| && (forall i, f | 0 <= i < n && SectionHas(sections[i], f) :: Loads(f))
    && exists f :: SectionHas(sections[n], f) && !Loads(f)
  }

  lemma FirstFailingIff(sections: seq<SectionFiles>, n: nat)
    ensures IsFirstFailing(sections, n) <==> BreaksAt(sections, n)
  {
    forall i | 0 <= i < |sections|
      ensures SectionSucceeds(sections[i]) <==> forall f | SectionHas(sections[i], f) :: Loads(f)
    {
      SectionSucceedsIff(sections[i]);
    }
  }

  lemma SectionSucceedsIff(section: SectionFiles)
    ensures SectionSucceeds(section) <==> forall f | SectionHas(section, f) :: Loads(f)
  {
    forall f ensures f in [section.yaml] + LessonsFiles(section.lessons) <==> SectionHas(section, f) {
      LessonsFilesHave(section.lessons, f);
    }
  }

  // ---------------------------------------------------------------- what a complete load yields

  function WholeProblems(problems: seq<ProblemEntry>): seq<ProblemData> {
    if problems == [] then []
    else [ProblemData(problems[0].id, problems[0].files.content)] + WholeProblems(problems[1..])
  }

  function WholeReadings(readings: seq<ReadingFiles>): seq<TextReading> {
    if readings == [] then [] else [TextReading(readings[0].id, readings[0].text)] + WholeReadings(readings[1..])
  }

  function WholeLesson(lesson: LessonFiles): Lesson {
    Lesson(lesson.id, lesson.title, WholeReadings(lesson.readings), WholeProblems(lesson.problems))
  }

  function WholeLessons(lessons: seq<LessonFiles>): seq<Lesson> {
    if lessons == [] then [] else [WholeLesson(lessons[0])] + WholeLessons(lessons[1..])
  }

  function WholeSections(sections: seq<SectionFiles>): seq<Section> {
    if sections == [] then []
    else [Section(sections[0].id, sections[0].title, WholeLessons(sections[0].lessons))] + WholeSections(sections[1..])
  }

  function WholeCourse(id: string, course: CourseOnDisk): CourseData {
    CourseData(id, course.description,
               match course.layout
               case Sectioned(sections) => WholeSections(sections)
               case Flat(lessons) => [Section("", "", WholeLessons(lessons))])
  }

  // ---------------------------------------------------------------- the complete course, item by item

  predicate IsWholeLesson(lesson: Lesson, files: LessonFiles) {
    && lesson.id == files.id && lesson.name == files.title
    && |lesson.readings| == |files.readings| && |lesson.problems| == |files.problems|
    && (forall k | 0 <= k < |files.readings| ::
          lesson.readings[k].id == files.readings[k].id && lesson.readings[k].data == files.readings[k].text)
    && (forall k | 0 <= k < |files.problems| ::
          && lesson.problems[k].id == files.problems[k].id
          && lesson.problems[k].content == files.problems[k].files.content)
  }

  predicate AreWholeLessons(lessons: seq<Lesson>, files: seq<LessonFiles>) {
    |lessons| == |files| && forall j | 0 <= j < |files| :: IsWholeLesson(lessons[j], files[j])
  }

  predicate IsWholeSection(section: Section, files: SectionFiles) {
    section.id == files.id && section.name == files.title && AreWholeLessons(section.lessons, files.lessons)
  }

  predicate AreWholeSections(sections: seq<Section>, files: seq<SectionFiles>) {
    |sections| == |files| && forall i | 0 <= i < |files| :: IsWholeSection(sections[i], files[i])
  }

  /** The data holds the whole course: as many sections, lessons, readings and problems as there are on
      the disk, each with its own id, title and text.  A course without sections becomes one without a name. */
  predicate IsWholeCourse(data: CourseData, id: string, course: CourseOnDisk) {
    && data.id == id && data.description == course.description
    && match course.layout
       case Sectioned(sections) => AreWholeSections(data.sections, sections)
       case Flat(lessons) =>
         && |data.sections| == 1 && data.sections[0].id == "" && data.sections[0].name == ""
         && AreWholeLessons(data.sections[0].lessons, lessons)
  }

  /** The whole course is determined by its items. */
  lemma WholeCourseIff(data: CourseData, id: string, course: CourseOnDisk)
    ensures data == WholeCourse(id, course) <==> IsWholeCourse(data, id, course)
  {
    match course.layout
    case Sectioned(sections) => WholeSectionsIff(data.sections, sections);
    case Flat(lessons) =>
      if |data.sections| == 1 {
        WholeLessonsIff(data.sections[0].lessons, lessons);
      }
  }

  lemma {:induction false} WholeSectionsIff(sections: seq<Section>, files: seq<SectionFiles>)
    ensures sections == WholeSections(files) <==> AreWholeSections(sections, files)
  {
    if files != [] && sections != [] {
      WholeSectionsIff(sections[1..], files[1..]);
      WholeLessonsIff(sections[0].lessons, files[0].lessons);
      assert sections == [sections[0]] + sections[1..];
      assert forall i | 0 < i < |files| :: files[i] == files[1..][i - 1];
    }
  }

  lemma {:induction false} WholeLessonsIff(lessons: seq<Lesson>, files: seq<LessonFiles>)
    ensures lessons == WholeLessons(files) <==> AreWholeLessons(lessons, files)
  {
    if files != [] && lessons != [] {
      WholeLessonsIff(lessons[1..], files[1..]);
      WholeLessonIs(files[0]);
      WholeReadingsAre(files[0].readings);
      WholeProblemsAre(files[0].problems);
      assert lessons == [lessons[0]] + lessons[1..];
      assert forall j | 0 < j < |files| :: files[j] == files[1..][j - 1];
      if IsWholeLesson(lessons[0], files[0]) {
        assert lessons[0].readings == WholeReadings(files[0].readings);
        assert lessons[0].problems == WholeProblems(files[0].problems);
      }
    }
  }

  lemma WholeLessonIs(files: LessonFiles)
    ensures IsWholeLesson(WholeLesson(files), files)
  {
    WholeReadingsAre(files.readings);
    WholeProblemsAre(files.problems);
  }

  lemma {:induction false} WholeReadingsAre(files: seq<ReadingFiles>)
    ensures |WholeReadings(files)| == |files|
    ensures forall k | 0 <= k < |files| :: WholeReadings(files)[k] == TextReading(files[k].id, files[k].text)
  {
    if files != [] {
      WholeReadingsAre(files[1..]);
    }
  }

  lemma {:induction false} WholeProblemsAre(files: seq<ProblemEntry>)
    ensures |WholeProblems(files)| == |files|
    ensures forall k | 0 <= k < |files| :: WholeProblems(files)[k] == ProblemData(files[k].id, files[k].files.content)
  {
    if files != [] {
      WholeProblemsAre(files[1..]);
    }
  }

  // ---------------------------------------------------------------- the problems of a course

  function ProblemIds(problems: seq<ProblemEntry>): set<string> {
    if problems == [] then {} else {problems[0].id} + ProblemIds(problems[1..])
  }

  function LessonsProblemIds(lessons: seq<LessonFiles>): set<string> {
    if lessons == [] then {} else ProblemIds(lessons[0].problems) + LessonsProblemIds(lessons[1..])
  }

  function SectionsProblemIds(sections: seq<SectionFiles>): set<string> {
    if sections == [] then {} else LessonsProblemIds(sections[0].lessons) + SectionsProblemIds(sections[1..])
  }

  function CourseProblemIds(course: CourseOnDisk): set<string> {
    match course.layout
    case Sectioned(sections) => SectionsProblemIds(sections)
    case Flat(lessons) => LessonsProblemIds(lessons)
  }

  predicate LessonsHaveProblem(lessons: seq<LessonFiles>, id: string) {
    exists j, k | 0 <= j < |lessons| && 0 <= k < |lessons[j].problems| :: lessons[j].problems[k].id == id
  }

  /** The problems whose items a course load drops are those that its lessons list. */
  lemma ProblemIdsOfCourse(course: CourseOnDisk, id: string)
    ensures id in CourseProblemIds(course) <==>
              match course.layout
              case Sectioned(sections) => exists i | 0 <= i < |sections| :: LessonsHaveProblem(sections[i].lessons, id)
              case Flat(lessons) => LessonsHaveProblem(lessons, id)
  {
    match course.layout
    case Sectioned(sections) => SectionsProblemIdsAre(sections, id);
    case Flat(lessons) => LessonsProblemIdsAre(lessons, id);
  }

  lemma {:induction false} SectionsProblemIdsAre(sections: seq<SectionFiles>, id: string)
    ensures id in SectionsProblemIds(sections) <==>
              exists i | 0 <= i < |sections| :: LessonsHaveProblem(sections[i].lessons, id)
  {
    if sections != [] {
      SectionsProblemIdsAre(sections[1..], id);
      LessonsProblemIdsAre(sections[0].lessons, id);
      assert forall i | 0 < i < |sections| :: sections[i] == sections[1..][i - 1];
    }
  }

  lemma {:induction false} LessonsProblemIdsAre(lessons: seq<LessonFiles>, id: string)
    ensures id in LessonsProblemIds(lessons) <==> LessonsHaveProblem(lessons, id)
  {
    if lessons != [] {
      LessonsProblemIdsAre(lessons[1..], id);
      ProblemIdsAre(lessons[0].problems, id);
      assert forall j | 0 < j < |lessons| :: lessons[j] == lessons[1..][j - 1];
    }
  }

  lemma {:induction false} ProblemIdsAre(problems: seq<ProblemEntry>, id: string)
    ensures id in ProblemIds(problems) <==> exists k | 0 <= k < |problems| :: problems[k].id == id
  {
    if problems != [] {
      ProblemIdsAre(problems[1..], id);
      assert forall k | 0 < k < |problems| :: problems[k] == problems[1..][k - 1];
    }
  }

  // ---------------------------------------------------------------- last-modified times

  function Later(stamp: Time, mtime: Time): Time { if mtime > stamp then mtime else stamp }

  function CourseTouchedBy(stamp: Option<Time>, f: File): Option<Time> {
    if stamp.Some? && f.course && f.mtime.Some? then Some(Later(stamp.value, f.mtime.value)) else stamp
  }

  /** The course's last-modified time after its files were looked at. */
  function CourseTouched(stamp: Option<Time>, files: seq<File>): Option<Time>
    decreases |files|
  {
    if files == [] then stamp else CourseTouched(CourseTouchedBy(stamp, files[0]), files[1..])
  }

  function ProblemTouchedBy(stamp: Option<Time>, f: File): Option<Time> {
    if f.problem && f.mtime.Some?
    then Some(if stamp.None? then f.mtime.value else Later(stamp.value, f.mtime.value))
    else stamp
  }

  function ProblemTouched(stamp: Option<Time>, files: seq<File>): Option<Time>
    decreases |files|
  {
    if files == [] then stamp else ProblemTouched(ProblemTouchedBy(stamp, files[0]), files[1..])
  }

  lemma {:induction false} CourseTouchedSplits(stamp: Option<Time>, a: seq<File>, b: seq<File>)
    ensures CourseTouched(stamp, a + b) == CourseTouched(CourseTouched(stamp, a), b)
    decreases |a|
  {
    if a == [] {
      assert a + b == b;
    } else {
      assert (a + b)[0] == a[0] && (a + b)[1..] == a[1..] + b;
      CourseTouchedSplits(CourseTouchedBy(stamp, a[0]), a[1..], b);
    }
  }

  predicate CountsForCourse(files: seq<File>, t: Time) {
    exists f :: f in files && f.course && f.mtime == Some(t)
  }

  predicate CountsForProblem(files: seq<File>, t: Time) {
    exists f :: f in files && f.problem && f.mtime == Some(t)
  }

  /** The time is what it was, or that of a file that counts for the course. */
  predicate TimeCameFrom(before: Option<Time>, after: Option<Time>, files: seq<File>) {
    after == before || (after.Some? && CountsForCourse(files, after.value))
  }

  /** From the base on, the last-modified time is the maximum of the base and of the files that
      count for the course. */
  lemma {:induction false} CourseTouchedIsMaximum(base: Time, files: seq<File>)
    ensures var r := CourseTouched(Some(base), files);
            && r.Some? && r.value >= base && (r.value == base || CountsForCourse(files, r.value))
            && forall t | CountsForCourse(files, t) :: r.value >= t
    decreases |files|
  {
    if files != [] {
      var next := CourseTouchedBy(Some(base), files[0]);
      CourseTouchedIsMaximum(next.value, files[1..]);
      assert files == [files[0]] + files[1..];
      var r := CourseTouched(Some(base), files).value;
      if r == next.value && r != base {
        assert files[0] in files && files[0].mtime == Some(r);
      }
      forall t | CountsForCourse(files, t) ensures r >= t {
        var f :| f in files && f.course && f.mtime == Some(t);
        if f != files[0] {
          assert f in files[1..];
          assert CountsForCourse(files[1..], t);
        }
      }
    }
  }

  lemma {:induction false} ProblemTouchedIsMaximum(stamp: Option<Time>, files: seq<File>)
    ensures var r := ProblemTouched(stamp, files);
            && (r.Some? ==> r == stamp || CountsForProblem(files, r.value))
            && (stamp.Some? ==> r.Some? && r.value >= stamp.value)
            && forall t | CountsForProblem(files, t) :: r.Some? && r.value >= t
    decreases |files|
  {
    if files != [] {
      var next := ProblemTouchedBy(stamp, files[0]);
      ProblemTouchedIsMaximum(next, files[1..]);
      assert files == [files[0]] + files[1..];
      var r := ProblemTouched(stamp, files);
      if r == next && r != stamp {
        assert files[0] in files && files[0].problem && files[0].mtime == r;
      }
      forall t | CountsForProblem(files, t) ensures r.Some? && r.value >= t {
        var f :| f in files && f.problem && f.mtime == Some(t);
        if f != files[0] {
          assert f in files[1..];
          assert CountsForProblem(files[1..], t);
        }
      }
    }
  }

  /** After a successful load of a course its last-modified time is the time of one of its files
      if and only if some file is not older than the epoch. */
  lemma LastModifiedIsOneOfTheFilesIff(course: CourseOnDisk)
    ensures var r := CourseTouched(Some(0), CourseFilesOf(course));
            r.Some? && (CountsForCourse(CourseFilesOf(course), r.value) <==>
                        exists t :: CountsForCourse(CourseFilesOf(course), t) && t >= 0)
  {
    CourseTouchedIsMaximum(0, CourseFilesOf(course));
  }
}
