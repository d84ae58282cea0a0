/** The loader of courses and problems with its ten-second caches.  A load works on the cache in
    place and may fail after any file. */
module CourseLoading {
  import opened CourseFiles
  import opened Wrappers

  const RELOAD_INTERVAL: Time := 10_000

  datatype Failure = FileMissing | FileBroken
  datatype Result<+T> = Ok(value: T) | Err(error: Failure)

  datatype CacheItem<T> = CacheItem(data: Option<T>, lastModified: Option<Time>, lastChecked: Option<Time>,
      loadError: Option<Failure>)
  {
    /** What sends a caller back to the disk. */
    predicate IsStale(now: Time) {
      lastChecked.None? || data.None? || loadError.Some? || now >= lastChecked.value + RELOAD_INTERVAL
    }

    /** A load that went well ended less than ten seconds ago. */
    predicate IsFresh(now: Time) {
      lastChecked.Some? && data.Some? && loadError.None? && now - lastChecked.value < 10_000
    }

    /** Nothing but the last-modified time is known. */
    predicate IsBlank() { data.None? && lastChecked.None? && loadError.None? }
  }

  type ProblemsCache = map<string, CacheItem<ProblemData>>

  function Blank<T>(): CacheItem<T> { CacheItem(None, None, None, None) }

  /** `after` is `before`, but for some of the `ids`, whose items became blank. */
  predicate OnlyEvicts(before: ProblemsCache, after: ProblemsCache, ids: set<string>) {
    && before.Keys <= after.Keys
    && forall id | id in after :: (id in before && after[id] == before[id]) || (id in ids && after[id].IsBlank())
  }

  predicate AllEvicted(cache: ProblemsCache, ids: set<string>) {
    forall id | id in ids :: id in cache && cache[id].IsBlank()
  }

  /** Only the last-modified time of item `id` differs. */
  predicate OnlyTouches(before: ProblemsCache, after: ProblemsCache, id: string) {
    id in before && id in after && after == before[id := before[id].(lastModified := after[id].lastModified)]
  }

  lemma OnlyEvictsTransitive(a: ProblemsCache, b: ProblemsCache, c: ProblemsCache, ids: set<string>,
      more: set<string>, all: set<string>)
    requires OnlyEvicts(a, b, ids) && OnlyEvicts(b, c, more) && ids <= all && more <= all
    ensures OnlyEvicts(a, c, all)
  {
  }

  lemma EvictsMore(before: ProblemsCache, after: ProblemsCache, all: set<string>, here: set<string>, rest: set<string>)
    requires AllEvicted(before, all - (here + rest)) && OnlyEvicts(before, after, here) && AllEvicted(after, here)
    ensures AllEvicted(after, all - rest)
  {
    forall id | id in all - rest ensures id in after && after[id].IsBlank() {
      if id !in here {
        assert id in all - (here + rest);
      }
    }
  }

  /** The course read so far, when the first `done` sections were loaded. */
  ghost function PartialCourse(id: string, course: CourseOnDisk, done: nat): CourseData
    requires course.layout.Sectioned? && done <= |course.layout.sections|
  {
    CourseData(id, course.description, WholeSections(course.layout.sections[..done]))
  }

  /** The data in the cache after a load that failed: what it was, or the sections before the one
      that failed. */
  ghost predicate LeftBehind(id: string, course: CourseOnDisk, before: Option<CourseData>, after: Option<CourseData>) {
    if !AllOk(course.files, true) then after == before
    else if course.layout.Flat? then after == Some(CourseData(id, course.description, []))
    else exists n: nat :: IsFirstFailing(course.layout.sections, n) && after == Some(PartialCourse(id, course, n))
  }

  /** What a load makes of the course's item: a complete one, or one that keeps its reasons to be stale. */
  ghost predicate AfterReload(id: string, before: CacheItem<CourseData>, after: CacheItem<CourseData>,
                        course: CourseOnDisk, done: Time, error: Option<Failure>)
  {
    if CourseSucceeds(course) then
      after == CacheItem(Some(WholeCourse(id, course)), CourseTouched(Some(0), CourseFilesOf(course)), Some(done), None)
    else
      after.lastChecked == before.lastChecked && after.loadError == error
          && LeftBehind(id, course, before.data, after.data)
  }

  predicate NotEarlier(before: Option<Time>, after: Option<Time>) {
    before.Some? == after.Some? && (before.Some? ==> after.value >= before.value)
  }

  predicate OnlyTimeMoves(before: CacheItem<CourseData>, after: CacheItem<CourseData>) {
    after.lastModified.Some? && after == before.(lastModified := after.lastModified)
  }

  /** Loading a problem alone also counts its files for the course. */
  predicate OnlyCourseStampRises(before: CacheItem<CourseData>, after: CacheItem<CourseData>, files: ProblemFiles,
      complete: bool) {
    && after == before.(lastModified := after.lastModified)
    && NotEarlier(before.lastModified, after.lastModified)
    && TimeCameFrom(before.lastModified, after.lastModified, files.All())
    && (complete ==> after.lastModified == CourseTouched(before.lastModified, files.All()))
  }

  class CourseLoader {
    const courseId: string
    var courseCache: CacheItem<CourseData>
    var problemsCache: ProblemsCache
    var section: Section
    var lesson: Lesson

    constructor (courseId: string)
      ensures courseCache == Blank() && problemsCache == map[] && this.courseId == courseId
    {
      this.courseId := courseId;
      courseCache := Blank();
      problemsCache := map[];
      section := Section("", "", []);
      lesson := Lesson("", "", [], []);
    }

    // -------------------------------------------------------------- last-modified times

    method UpdateCourseLastModified(f: File) returns (ok: bool)
      modifies `courseCache
      ensures ok <==> (courseCache.lastModified.Some? ==> f.mtime.Some?)
      ensures courseCache
          == old(courseCache).(lastModified := CourseTouchedBy(old(courseCache.lastModified), f.(course := true)))
    {
      if courseCache.lastModified.None? {
        return true;
      }
      if f.mtime.None? {
        return false;
      }
      if f.mtime.value > courseCache.lastModified.value {
        courseCache := courseCache.(lastModified := f.mtime);
      }
      return true;
    }

    method UpdateProblemLastModifiedFromFile(id: string, f: File) returns (ok: bool)
      modifies `problemsCache
      ensures ok <==> f.mtime.Some?
      ensures !ok ==> problemsCache == old(problemsCache)
      ensures ok ==>
                var before := old(problemsCache);
                var item := if id in before then before[id] else Blank().(lastModified := Some(0));
                var time := ProblemTouchedBy(item.lastModified, f.(problem := true));
                problemsCache == before[id := item.(lastModified := time)]
    {
      if f.mtime.None? {
        return false;
      }
      if id !in problemsCache {
        problemsCache := problemsCache[id := Blank().(lastModified := Some(0))];
      }
      if problemsCache[id].lastModified.None? {
        problemsCache := problemsCache[id := problemsCache[id].(lastModified := f.mtime)];
      }
      if f.mtime.value > problemsCache[id].lastModified.value {
        problemsCache := problemsCache[id := problemsCache[id].(lastModified := f.mtime)];
      }
      return true;
    }

    // -------------------------------------------------------------- one file, one problem

    method LoadCourseFile(f: CourseFile) returns (r: Result<()>)
      modifies `courseCache
      ensures courseCache == old(courseCache).(lastModified := courseCache.lastModified)
      ensures NotEarlier(old(courseCache.lastModified), courseCache.lastModified)
      ensures r.Ok? <==> FileOk(f, old(courseCache.lastModified).Some?)
      ensures r.Ok? ==> courseCache.lastModified == CourseTouchedBy(old(courseCache.lastModified), f)
    {
      var ok := UpdateCourseLastModified(f);
      if !ok {
        return Err(FileMissing);
      }
      return if f.ok then Ok(()) else Err(FileBroken);
    }

    method LoadProblemFile(id: string, f: File) returns (r: Result<()>)
      requires id in problemsCache
      modifies `courseCache, `problemsCache
      ensures courseCache == old(courseCache).(lastModified := courseCache.lastModified)
      ensures NotEarlier(old(courseCache.lastModified), courseCache.lastModified)
      ensures OnlyTouches(old(problemsCache), problemsCache, id)
      ensures courseCache.lastModified == old(courseCache.lastModified)
           || (f.course && courseCache.lastModified == f.mtime)
      ensures r.Ok? <==> FileOk(f, old(courseCache.lastModified).Some?)
      ensures r.Ok? ==> courseCache.lastModified == CourseTouchedBy(old(courseCache.lastModified), f)
      ensures r.Ok? ==> problemsCache[id].lastModified == ProblemTouchedBy(old(problemsCache[id].lastModified), f)
    {
      if f.course {
        var ok := UpdateCourseLastModified(f);
        if !ok {
          return Err(FileMissing);
        }
      }
      if f.problem {
        var ok := UpdateProblemLastModifiedFromFile(id, f);
        if !ok {
          return Err(FileMissing);
        }
      }
      return if f.ok then Ok(()) else Err(FileBroken);
    }

    method LoadProblemData(id: string, files: ProblemFiles) returns (r: Result<ProblemData>)
      requires id in problemsCache
      modifies `courseCache, `problemsCache
      ensures courseCache == old(courseCache).(lastModified := courseCache.lastModified)
      ensures NotEarlier(old(courseCache.lastModified), courseCache.lastModified)
      ensures OnlyTouches(old(problemsCache), problemsCache, id)
      ensures TimeCameFrom(old(courseCache.lastModified), courseCache.lastModified, files.All())
      ensures r.Ok? <==> AllOk(files.All(), old(courseCache.lastModified).Some?)
      ensures r.Ok? ==> r.value == ProblemData(id, files.content)
      ensures r.Ok? ==> courseCache.lastModified == CourseTouched(old(courseCache.lastModified), files.All())
      ensures r.Ok? ==>
          problemsCache[id].lastModified == ProblemTouched(old(problemsCache[id].lastModified), files.All())
    {
      var all := files.All();
      for i := 0 to |all|
        invariant courseCache == old(courseCache).(lastModified := courseCache.lastModified)
        invariant NotEarlier(old(courseCache.lastModified), courseCache.lastModified)
        invariant OnlyTouches(old(problemsCache), problemsCache, id)
        invariant TimeCameFrom(old(courseCache.lastModified), courseCache.lastModified, all)
        invariant forall k | 0 <= k < i :: FileOk(all[k], old(courseCache.lastModified).Some?)
        invariant CourseTouched(courseCache.lastModified, all[i..]) == CourseTouched(old(courseCache.lastModified), all)
        invariant ProblemTouched(problemsCache[id].lastModified, all[i..])
            == ProblemTouched(old(problemsCache[id].lastModified), all)
      {
        assert all[i..][0] == all[i] && all[i..][1..] == all[i + 1..];
        assert all[i] in all;
        var step := LoadProblemFile(id, all[i]);
        if step.Err? {
          return Err(step.error);
        }
      }
      return Ok(ProblemData(id, files.content));
    }

    // -------------------------------------------------------------- the nested loops of a course load

    method LoadCourseFiles(files: seq<CourseFile>) returns (r: Result<()>)
      requires courseCache.lastModified.Some?
      modifies `courseCache
      ensures OnlyTimeMoves(old(courseCache), courseCache)
      ensures r.Ok? <==> AllOk(files, true)
      ensures r.Ok? ==> courseCache.lastModified == CourseTouched(old(courseCache.lastModified), files)
    {
      for i := 0 to |files|
        invariant OnlyTimeMoves(old(courseCache), courseCache)
        invariant forall k | 0 <= k < i :: FileOk(files[k], true)
        invariant CourseTouched(courseCache.lastModified, files[i..])
            == CourseTouched(old(courseCache.lastModified), files)
      {
        assert files[i..][0] == files[i] && files[i..][1..] == files[i + 1..];
        var step := LoadCourseFile(files[i]);
        if step.Err? {
          assert files[i] in files;
          return step;
        }
      }
      return Ok(());
    }

    method LoadReadings(readings: seq<ReadingFiles>) returns (r: Result<()>)
      requires courseCache.lastModified.Some?
      modifies `courseCache, `lesson
      ensures OnlyTimeMoves(old(courseCache), courseCache)
      ensures r.Ok? <==> AllOk(ReadingsFiles(readings), true)
      ensures r.Ok? ==>
          courseCache.lastModified == CourseTouched(old(courseCache.lastModified), ReadingsFiles(readings))
      ensures r.Ok? ==> lesson == old(lesson).(readings := old(lesson).readings + WholeReadings(readings))
    {
      for i := 0 to |readings|
        invariant OnlyTimeMoves(old(courseCache), courseCache)
        invariant AllOk(ReadingsFiles(readings), true) <==> AllOk(ReadingsFiles(readings[i..]), true)
        invariant CourseTouched(courseCache.lastModified, ReadingsFiles(readings[i..]))
               == CourseTouched(old(courseCache.lastModified), ReadingsFiles(readings))
        invariant lesson == old(lesson).(readings := lesson.readings)
        invariant lesson.readings + WholeReadings(readings[i..]) == old(lesson.readings) + WholeReadings(readings)
      {
        var reading := readings[i];
        assert readings[i..][0] == reading && readings[i..][1..] == readings[i + 1..];
        AllOkSplits(reading.files, ReadingsFiles(readings[i + 1..]), true);
        CourseTouchedSplits(courseCache.lastModified, reading.files, ReadingsFiles(readings[i + 1..]));
        var step := LoadCourseFiles(reading.files);
        if step.Err? {
          return step;
        }
        Append(lesson.readings, TextReading(reading.id, reading.text), WholeReadings(readings[i + 1..]));
        lesson := lesson.(readings := lesson.readings + [TextReading(reading.id, reading.text)]);
      }
      return Ok(());
    }

    method LoadProblems(problems: seq<ProblemEntry>) returns (r: Result<()>)
      requires courseCache.lastModified.Some?
      modifies `courseCache, `problemsCache, `lesson
      ensures OnlyTimeMoves(old(courseCache), courseCache)
      ensures OnlyEvicts(old(problemsCache), problemsCache, ProblemIds(problems))
      ensures r.Ok? <==> AllOk(ProblemsFiles(problems), true)
      ensures r.Ok? ==> AllEvicted(problemsCache, ProblemIds(problems))
      ensures r.Ok? ==>
          courseCache.lastModified == CourseTouched(old(courseCache.lastModified), ProblemsFiles(problems))
      ensures r.Ok? ==> lesson == old(lesson).(problems := old(lesson).problems + WholeProblems(problems))
    {
      for i := 0 to |problems|
        invariant OnlyTimeMoves(old(courseCache), courseCache)
        invariant OnlyEvicts(old(problemsCache), problemsCache, ProblemIds(problems))
        invariant ProblemIds(problems[i..]) <= ProblemIds(problems)
        invariant AllEvicted(problemsCache, ProblemIds(problems) - ProblemIds(problems[i..]))
        invariant AllOk(ProblemsFiles(problems), true) <==> AllOk(ProblemsFiles(problems[i..]), true)
        invariant CourseTouched(courseCache.lastModified, ProblemsFiles(problems[i..]))
               == CourseTouched(old(courseCache.lastModified), ProblemsFiles(problems))
        invariant lesson == old(lesson).(problems := lesson.problems)
        invariant lesson.problems + WholeProblems(problems[i..]) == old(lesson.problems) + WholeProblems(problems)
      {
        ProblemsUnfold(problems, i, courseCache.lastModified);
        ghost var before := problemsCache;
        var data := LoadProblem(problems[i]);
        OnlyEvictsTransitive(old(problemsCache), before, problemsCache, ProblemIds(problems), {problems[i].id},
            ProblemIds(problems));
        if data.Err? {
          return Err(data.error);
        }
        EvictsMore(before, problemsCache, ProblemIds(problems), {problems[i].id}, ProblemIds(problems[i + 1..]));
        Append(lesson.problems, data.value, WholeProblems(problems[i + 1..]));
        lesson := lesson.(problems := lesson.problems + [data.value]);
      }
      return Ok(());
    }

    /** A problem met in a course: its cached item is dropped first. */
    method LoadProblem(entry: ProblemEntry) returns (r: Result<ProblemData>)
      requires courseCache.lastModified.Some?
      modifies `courseCache, `problemsCache
      ensures OnlyTimeMoves(old(courseCache), courseCache)
      ensures OnlyEvicts(old(problemsCache), problemsCache, {entry.id}) && AllEvicted(problemsCache, {entry.id})
      ensures r.Ok? <==> AllOk(entry.files.All(), true)
      ensures r.Ok? ==> r.value == ProblemData(entry.id, entry.files.content)
      ensures r.Ok? ==> courseCache.lastModified == CourseTouched(old(courseCache.lastModified), entry.files.All())
      ensures r.Ok? ==> problemsCache[entry.id].lastModified == ProblemTouched(None, entry.files.All())
    {
      problemsCache := problemsCache[entry.id := Blank()];
      r := LoadProblemData(entry.id, entry.files);
    }

    method LoadCourseLesson(files: LessonFiles) returns (r: Result<()>)
      requires courseCache.lastModified.Some?
      modifies `courseCache, `problemsCache, `lesson
      ensures OnlyTimeMoves(old(courseCache), courseCache)
      ensures OnlyEvicts(old(problemsCache), problemsCache, ProblemIds(files.problems))
      ensures r.Ok? <==> AllOk(InLesson(files), true)
      ensures r.Ok? ==> AllEvicted(problemsCache, ProblemIds(files.problems))
      ensures r.Ok? ==> courseCache.lastModified == CourseTouched(old(courseCache.lastModified), InLesson(files))
      ensures r.Ok? && old(lesson) == Lesson(files.id, "", [], []) ==>
          lesson == WholeLesson(files) && IsWholeLesson(lesson, files)
    {
      AllOkSplits(ReadingsFiles(files.readings), ProblemsFiles(files.problems), true);
      CourseTouchedSplits(courseCache.lastModified, ReadingsFiles(files.readings), ProblemsFiles(files.problems));
      lesson := lesson.(name := files.title);
      var read := LoadReadings(files.readings);
      if read.Err? {
        return read;
      }
      r := LoadProblems(files.problems);
      WholeLessonIs(files);
    }

    method LoadCourseSection(title: string, lessons: seq<LessonFiles>) returns (r: Result<()>)
      requires courseCache.lastModified.Some?
      modifies `courseCache, `problemsCache, `lesson, `section
      ensures OnlyTimeMoves(old(courseCache), courseCache)
      ensures OnlyEvicts(old(problemsCache), problemsCache, LessonsProblemIds(lessons))
      ensures r.Ok? <==> AllOk(LessonsFiles(lessons), true)
      ensures r.Ok? ==> AllEvicted(problemsCache, LessonsProblemIds(lessons))
      ensures r.Ok? ==> courseCache.lastModified == CourseTouched(old(courseCache.lastModified), LessonsFiles(lessons))
      ensures r.Ok? ==> section == Section(old(section).id, title, old(section).lessons + WholeLessons(lessons))
      ensures r.Ok? && old(section).lessons == [] ==> AreWholeLessons(section.lessons, lessons)
    {
      section := section.(name := title);
      for i := 0 to |lessons|
        invariant OnlyTimeMoves(old(courseCache), courseCache)
        invariant OnlyEvicts(old(problemsCache), problemsCache, LessonsProblemIds(lessons))
        invariant LessonsProblemIds(lessons[i..]) <= LessonsProblemIds(lessons)
        invariant AllEvicted(problemsCache, LessonsProblemIds(lessons) - LessonsProblemIds(lessons[i..]))
        invariant AllOk(LessonsFiles(lessons), true) <==> AllOk(LessonsFiles(lessons[i..]), true)
        invariant CourseTouched(courseCache.lastModified, LessonsFiles(lessons[i..]))
               == CourseTouched(old(courseCache.lastModified), LessonsFiles(lessons))
        invariant section == Section(old(section).id, title, section.lessons)
        invariant section.lessons + WholeLessons(lessons[i..]) == old(section.lessons) + WholeLessons(lessons)
      {
        LessonsUnfold(lessons, i, courseCache.lastModified);
        ghost var before, had := problemsCache, section.lessons;
        r := LoadLesson(lessons[i]);
        LessonEvicts(old(problemsCache), before, problemsCache, lessons, i);
        if r.Err? {
          return;
        }
        Append(had, WholeLesson(lessons[i]), WholeLessons(lessons[i + 1..]));
      }
      WholeLessonsIff(WholeLessons(lessons), lessons);
      assert [] + WholeLessons(lessons) == WholeLessons(lessons);
      return Ok(());
    }

    /** The body of the loop over lessons. */
    method LoadLesson(files: LessonFiles) returns (r: Result<()>)
      requires courseCache.lastModified.Some?
      modifies `courseCache, `problemsCache, `lesson, `section
      ensures OnlyTimeMoves(old(courseCache), courseCache)
      ensures OnlyEvicts(old(problemsCache), problemsCache, ProblemIds(files.problems))
      ensures r.Ok? <==> AllOk([files.yaml] + InLesson(files), true)
      ensures r.Ok? ==> AllEvicted(problemsCache, ProblemIds(files.problems))
      ensures r.Ok? ==>
          courseCache.lastModified == CourseTouched(old(courseCache.lastModified), [files.yaml] + InLesson(files))
      ensures section == if r.Err? then old(section) else
                old(section).(lessons := old(section).lessons + [WholeLesson(files)])
    {
      AllOkSplits([files.yaml], InLesson(files), true);
      var yaml := LoadCourseFile(files.yaml);
      if yaml.Err? {
        return yaml;
      }
      lesson := Lesson(files.id, "", [], []);
      r := LoadCourseLesson(files);
      if r.Ok? {
        section := section.(lessons := section.lessons + [lesson]);
      }
    }

    method LoadSection(files: SectionFiles) returns (r: Result<()>)
      requires courseCache.lastModified.Some?
      modifies `courseCache, `problemsCache, `lesson, `section
      ensures OnlyTimeMoves(old(courseCache), courseCache)
      ensures OnlyEvicts(old(problemsCache), problemsCache, LessonsProblemIds(files.lessons))
      ensures r.Ok? <==> SectionSucceeds(files)
      ensures r.Ok? ==> AllEvicted(problemsCache, LessonsProblemIds(files.lessons))
      ensures r.Ok? ==>
          courseCache.lastModified
          == CourseTouched(old(courseCache.lastModified), [files.yaml] + LessonsFiles(files.lessons))
      ensures r.Ok? ==> section == Section(files.id, files.title, WholeLessons(files.lessons))
    {
      AllOkSplits([files.yaml], LessonsFiles(files.lessons), true);
      section := Section(files.id, "", []);
      var yaml := LoadCourseFile(files.yaml);
      if yaml.Err? {
        return yaml;
      }
      r := LoadCourseSection(files.title, files.lessons);
    }

    /** A failed load may leave a course with some of its sections in the cache, while the time of
        the last check and the error stay what they were. */
    method LoadCourse(course: CourseOnDisk, done: Time) returns (r: Result<()>)
      modifies `courseCache, `problemsCache, `lesson, `section
      ensures courseCache.lastModified.Some?
      ensures r.Ok? <==> CourseSucceeds(course)
      ensures OnlyEvicts(old(problemsCache), problemsCache, CourseProblemIds(course))
      ensures r.Ok? ==> AllEvicted(problemsCache, CourseProblemIds(course))
      ensures r.Ok? ==>
          courseCache == CacheItem(Some(WholeCourse(courseId, course)), CourseTouched(Some(0), CourseFilesOf(course)),
                                                 Some(done), None)
      ensures r.Ok? ==> IsWholeCourse(courseCache.data.value, courseId, course)
      ensures r.Err? ==>
          courseCache.lastChecked == old(courseCache.lastChecked) && courseCache.loadError == old(courseCache.loadError)
      ensures r.Err? ==> LeftBehind(courseId, course, old(courseCache.data), courseCache.data)
    {
      courseCache := courseCache.(lastModified := Some(0));
      AllOkSplits(course.files, LayoutFiles(course.layout), true);
      CourseTouchedSplits(Some(0), course.files, LayoutFiles(course.layout));
      r := LoadCourseFiles(course.files);
      if r.Err? {
        return;
      }
      courseCache := courseCache.(data := Some(CourseData(courseId, course.description, [])));
      if course.layout.Sectioned? {
        r := LoadSections(course);
        if r.Err? {
          return;
        }
      } else {
        section := Section("", "", []);
        r := LoadCourseSection(course.title, course.layout.lessons);
        if r.Err? {
          return;
        }
        section := section.(name := "");
        assert section == Section("", "", WholeLessons(course.layout.lessons));
        assert [] + [section] == [section];
        var data := courseCache.data.value;
        courseCache := courseCache.(data := Some(data.(sections := data.sections + [section])));
      }
      courseCache := courseCache.(lastChecked := Some(done), loadError := None);
      WholeCourseIff(courseCache.data.value, courseId, course);
    }

    method LoadSections(course: CourseOnDisk) returns (r: Result<()>)
      requires course.layout.Sectioned? && courseCache.lastModified.Some?
      requires courseCache.data == Some(CourseData(courseId, course.description, []))
      modifies `courseCache, `problemsCache, `lesson, `section
      ensures courseCache.lastModified.Some?
      ensures courseCache == old(courseCache).(lastModified := courseCache.lastModified, data := courseCache.data)
      ensures OnlyEvicts(old(problemsCache), problemsCache, CourseProblemIds(course))
      ensures r.Ok? <==> AllOk(LayoutFiles(course.layout), true)
      ensures r.Ok? ==> AllEvicted(problemsCache, CourseProblemIds(course))
      ensures r.Ok? ==>
          courseCache.lastModified == CourseTouched(old(courseCache.lastModified), LayoutFiles(course.layout))
      ensures r.Ok? ==> courseCache.data == Some(WholeCourse(courseId, course))
      ensures r.Err? ==>
          exists n: nat :: IsFirstFailing(course.layout.sections, n)
                  && courseCache.data == Some(PartialCourse(courseId, course, n))
    {
      var sections := course.layout.sections;
      for i := 0 to |sections|
        invariant courseCache.lastModified.Some?
        invariant courseCache == old(courseCache).(lastModified := courseCache.lastModified, data := courseCache.data)
        invariant courseCache.data == Some(PartialCourse(courseId, course, i))
        invariant forall k | 0 <= k < i :: SectionSucceeds(sections[k])
        invariant OnlyEvicts(old(problemsCache), problemsCache, SectionsProblemIds(sections))
        invariant SectionsProblemIds(sections[i..]) <= SectionsProblemIds(sections)
        invariant AllEvicted(problemsCache, SectionsProblemIds(sections) - SectionsProblemIds(sections[i..]))
        invariant AllOk(SectionsFiles(sections), true) <==> AllOk(SectionsFiles(sections[i..]), true)
        invariant CourseTouched(courseCache.lastModified, SectionsFiles(sections[i..]))
               == CourseTouched(old(courseCache.lastModified), SectionsFiles(sections))
      {
        SectionsUnfold(sections, i, courseCache.lastModified);
        ghost var before := problemsCache;
        r := LoadSection(sections[i]);
        OnlyEvictsTransitive(old(problemsCache), before, problemsCache, SectionsProblemIds(sections),
                             LessonsProblemIds(sections[i].lessons), SectionsProblemIds(sections));
        if r.Err? {
          assert IsFirstFailing(sections, i);
          return;
        }
        WholeSectionsGrows(sections, i);
        var data := courseCache.data.value;
        courseCache := courseCache.(data := Some(data.(sections := data.sections + [section])));
      }
      assert sections[..|sections|] == sections;
      return Ok(());
    }

    // -------------------------------------------------------------- the cached requests

    predicate RequiresToReloadProblem(id: string, now: Time)
      reads this
    {
      id !in problemsCache || problemsCache[id].IsStale(now)
    }

    /** Data never comes without a last-modified time. */
    predicate Valid()
      reads this
    {
      && (courseCache.data.Some? ==> courseCache.lastModified.Some?)
      && forall id | id in problemsCache && problemsCache[id].data.Some? :: problemsCache[id].lastModified.Some?
    }

    method GetCourseData(course: CourseOnDisk, now: Time, done: Time) returns (r: Result<CourseData>)
      requires Valid()
      modifies this
      ensures Valid()
      ensures old(courseCache.IsFresh(now)) ==>
                r == Ok(old(courseCache.data).value) && courseCache == old(courseCache)
                    && problemsCache == old(problemsCache)
      ensures !old(courseCache.IsFresh(now)) ==>
                (r.Ok? <==> CourseSucceeds(course))
                    && AfterReload(courseId, old(courseCache), courseCache, course, done, old(courseCache.loadError))
                && OnlyEvicts(old(problemsCache), problemsCache, CourseProblemIds(course))
      ensures !old(courseCache.IsFresh(now)) && r.Ok? ==> IsWholeCourse(r.value, courseId, course)
    {
      if courseCache.IsStale(now) {
        var loaded := LoadCourse(course, done);
        if loaded.Err? {
          return Err(loaded.error);
        }
        CourseTouchedIsMaximum(0, CourseFilesOf(course));
      }
      if courseCache.loadError.Some? {
        assert false;  // no stored error gets this far
      }
      return Ok(courseCache.data.value);
    }

    method GetCourseLastModified(course: CourseOnDisk, now: Time, done: Time) returns (r: Result<Time>)
      requires Valid()
      modifies this
      ensures Valid()
      ensures old(courseCache.IsFresh(now)) ==>
                r == Ok(old(courseCache.lastModified).value) && courseCache == old(courseCache)
                    && problemsCache == old(problemsCache)
      ensures !old(courseCache.IsFresh(now)) ==>
                (r.Ok? <==> CourseSucceeds(course))
                && AfterReload(courseId, old(courseCache), courseCache, course, done,
                               if r.Ok? then None else Some(r.error))
                && OnlyEvicts(old(problemsCache), problemsCache, CourseProblemIds(course))
      ensures !old(courseCache.IsFresh(now)) && r.Ok? ==> Some(r.value) == CourseTouched(Some(0), CourseFilesOf(course))
    {
      if courseCache.IsStale(now) {
        var loaded := LoadCourse(course, done);
        CourseTouchedIsMaximum(0, CourseFilesOf(course));
        if loaded.Err? {
          courseCache := courseCache.(loadError := Some(loaded.error));
        }
      }
      if courseCache.loadError.Some? {
        return Err(courseCache.loadError.value);
      } else {
        return Ok(courseCache.lastModified.value);
      }
    }

    method GetProblemData(id: string, files: ProblemFiles, now: Time, done: Time) returns (r: Result<ProblemData>)
      requires Valid()
      modifies this
      ensures Valid()
      ensures id in old(problemsCache) && old(problemsCache)[id].IsFresh(now) ==>
                r == Ok(old(problemsCache)[id].data.value) && courseCache == old(courseCache)
                    && problemsCache == old(problemsCache)
      ensures !(id in old(problemsCache) && old(problemsCache)[id].IsFresh(now)) ==>
                (r.Ok? <==> AllOk(files.All(), old(courseCache.lastModified).Some?))
                && OnlyCourseStampRises(old(courseCache), courseCache, files, r.Ok?)
                && id in problemsCache && problemsCache == old(problemsCache)[id := problemsCache[id]]
                && (if r.Ok? then
                      r.value == ProblemData(id, files.content)
                      && problemsCache[id]
                           == CacheItem(Some(r.value), ProblemTouched(None, files.All()), Some(done), None)
                    else problemsCache[id].IsBlank())
    {
      if RequiresToReloadProblem(id, now) {
        problemsCache := problemsCache[id := Blank()];
        var data := LoadProblemData(id, files);
        if data.Err? {
          return Err(data.error);
        }
        problemsCache := problemsCache[id := problemsCache[id].(data := Some(data.value))];
        problemsCache := problemsCache[id := problemsCache[id].(lastChecked := Some(done))];
        ProblemHasStamp(files);
      }
      if problemsCache[id].loadError.Some? {
        assert false;  // no stored error gets this far
      }
      return Ok(problemsCache[id].data.value);
    }

    method GetProblemLastModified(id: string, files: ProblemFiles, now: Time, started: Time) returns (r: Result<Time>)
      requires Valid()
      modifies this
      ensures Valid()
      ensures id in old(problemsCache) && old(problemsCache)[id].IsFresh(now) ==>
                r == Ok(old(problemsCache)[id].lastModified.value) && courseCache == old(courseCache)
                    && problemsCache == old(problemsCache)
      ensures !(id in old(problemsCache) && old(problemsCache)[id].IsFresh(now)) ==>
                (r.Ok? <==> AllOk(files.All(), old(courseCache.lastModified).Some?))
                && OnlyCourseStampRises(old(courseCache), courseCache, files, r.Ok?)
                && id in problemsCache && problemsCache == old(problemsCache)[id := problemsCache[id]]
                && (if r.Ok? then
                      problemsCache[id] == CacheItem(Some(ProblemData(id, files.content)),
                                                     ProblemTouched(Some(0), files.All()), Some(started), None)
                      && Some(r.value) == problemsCache[id].lastModified
                    else problemsCache[id].loadError == Some(r.error) && problemsCache[id].data.None?)
    {
      if RequiresToReloadProblem(id, now) {
        problemsCache := problemsCache[id := CacheItem(None, Some(0), Some(started), None)];
        var data := LoadProblemData(id, files);
        ProblemTouchedIsMaximum(Some(0), files.All());
        if data.Ok? {
          problemsCache := problemsCache[id := problemsCache[id].(data := Some(data.value))];
        } else {
          problemsCache := problemsCache[id := problemsCache[id].(loadError := Some(data.error))];
        }
      }
      if problemsCache[id].loadError.Some? {
        return Err(problemsCache[id].loadError.value);
      } else {
        return Ok(problemsCache[id].lastModified.value);
      }
    }
  }

  lemma ProblemHasStamp(files: ProblemFiles)
    requires AllOk(files.All(), false)
    ensures ProblemTouched(None, files.All()).Some?
  {
    assert files.All()[0] in files.All();
    ProblemTouchedIsMaximum(None, files.All());
    assert CountsForProblem(files.All(), files.yamlTime.value);
  }

  lemma ProblemsUnfold(problems: seq<ProblemEntry>, i: nat, stamp: Option<Time>)
    requires i < |problems|
    ensures var here, rest := problems[i].files.All(), ProblemsFiles(problems[i + 1..]);
            && (AllOk(ProblemsFiles(problems[i..]), true) <==> AllOk(here, true) && AllOk(rest, true))
            && CourseTouched(stamp, ProblemsFiles(problems[i..])) == CourseTouched(CourseTouched(stamp, here), rest)
    ensures ProblemIds(problems[i..]) == {problems[i].id} + ProblemIds(problems[i + 1..])
    ensures WholeProblems(problems[i..])
        == [ProblemData(problems[i].id, problems[i].files.content)] + WholeProblems(problems[i + 1..])
  {
    assert problems[i..][1..] == problems[i + 1..];
    AllOkSplits(problems[i].files.All(), ProblemsFiles(problems[i + 1..]), true);
    CourseTouchedSplits(stamp, problems[i].files.All(), ProblemsFiles(problems[i + 1..]));
  }

  lemma Append<T>(a: seq<T>, x: T, b: seq<T>)
    ensures (a + [x]) + b == a + ([x] + b)
  {
  }

  lemma LessonEvicts(start: ProblemsCache, before: ProblemsCache, after: ProblemsCache, lessons: seq<LessonFiles>,
      i: nat)
    requires i < |lessons| && OnlyEvicts(start, before, LessonsProblemIds(lessons))
    requires OnlyEvicts(before, after, ProblemIds(lessons[i].problems))
    requires LessonsProblemIds(lessons[i..]) <= LessonsProblemIds(lessons)
    requires AllEvicted(before, LessonsProblemIds(lessons) - LessonsProblemIds(lessons[i..]))
    ensures OnlyEvicts(start, after, LessonsProblemIds(lessons))
    ensures LessonsProblemIds(lessons[i + 1..]) <= LessonsProblemIds(lessons)
    ensures AllEvicted(after, ProblemIds(lessons[i].problems)) ==>
              AllEvicted(after, LessonsProblemIds(lessons) - LessonsProblemIds(lessons[i + 1..]))
  {
    var all, here := LessonsProblemIds(lessons), ProblemIds(lessons[i].problems);
    LessonsUnfold(lessons, i, None);
    OnlyEvictsTransitive(start, before, after, all, here, all);
    if AllEvicted(after, here) {
      EvictsMore(before, after, all, here, LessonsProblemIds(lessons[i + 1..]));
    }
  }

  lemma LessonsUnfold(lessons: seq<LessonFiles>, i: nat, stamp: Option<Time>)
    requires i < |lessons|
    ensures var here, rest := [lessons[i].yaml] + InLesson(lessons[i]), LessonsFiles(lessons[i + 1..]);
            && (AllOk(LessonsFiles(lessons[i..]), true) <==> AllOk(here, true) && AllOk(rest, true))
            && CourseTouched(stamp, LessonsFiles(lessons[i..])) == CourseTouched(CourseTouched(stamp, here), rest)
    ensures LessonsProblemIds(lessons[i..]) == ProblemIds(lessons[i].problems) + LessonsProblemIds(lessons[i + 1..])
    ensures WholeLessons(lessons[i..]) == [WholeLesson(lessons[i])] + WholeLessons(lessons[i + 1..])
  {
    assert lessons[i..][1..] == lessons[i + 1..];
    var here := [lessons[i].yaml] + InLesson(lessons[i]);
    AllOkSplits(here, LessonsFiles(lessons[i + 1..]), true);
    CourseTouchedSplits(stamp, here, LessonsFiles(lessons[i + 1..]));
  }

  lemma SectionsUnfold(sections: seq<SectionFiles>, i: nat, stamp: Option<Time>)
    requires i < |sections|
    ensures var here, rest := [sections[i].yaml] + LessonsFiles(sections[i].lessons), SectionsFiles(sections[i + 1..]);
            && (AllOk(SectionsFiles(sections[i..]), true) <==> AllOk(here, true) && AllOk(rest, true))
            && CourseTouched(stamp, SectionsFiles(sections[i..])) == CourseTouched(CourseTouched(stamp, here), rest)
    ensures SectionsProblemIds(sections[i..])
        == LessonsProblemIds(sections[i].lessons) + SectionsProblemIds(sections[i + 1..])
  {
    assert sections[i..][1..] == sections[i + 1..];
    var here := [sections[i].yaml] + LessonsFiles(sections[i].lessons);
    AllOkSplits(here, SectionsFiles(sections[i + 1..]), true);
    CourseTouchedSplits(stamp, here, SectionsFiles(sections[i + 1..]));
  }

  lemma {:induction false} WholeSectionsGrows(sections: seq<SectionFiles>, i: nat)
    requires i < |sections|
    ensures WholeSections(sections[..i + 1])
         == WholeSections(sections[..i])
             + [Section(sections[i].id, sections[i].title, WholeLessons(sections[i].lessons))]
  {
    assert sections[..i + 1][1..] == sections[1..][..i];
    if i > 0 {
      assert sections[..i][1..] == sections[1..][..i - 1];
      WholeSectionsGrows(sections[1..], i - 1);
    }
  }
}
