/** Any sequence of requests to one loader, with loads that fail anywhere: what is handed out
    always comes from one complete load, not older than ten seconds. */
module CourseRuns {
  import opened CourseFiles
  import opened CourseLoading
  import opened Wrappers

  datatype Call =
    | Course(course: CourseOnDisk)
    | CourseTime(course: CourseOnDisk)
    | Problem(id: string, files: ProblemFiles)
    | ProblemTime(id: string, files: ProblemFiles)

  /** A call, what a load it starts would meet, and the clock: at the check, when a load starts,
      when it ends. */
  datatype Request = Request(call: Call, now: Time, started: Time, done: Time)
  {
    predicate IsForCourse() { call.Course? || call.CourseTime? }

    predicate IsCompleteCourseLoad() { IsForCourse() && CourseSucceeds(call.course) }

    /** All files that a load for this request looks at. */
    function Files(): seq<File> { if IsForCourse() then CourseFilesOf(call.course) else call.files.All() }

    predicate IsCompleteProblemLoad(id: string) {
      (call.Problem? || call.ProblemTime?) && call.id == id && AllOk(call.files.All(), false)
    }
  }

  datatype Answer =
    | CourseAnswer(course: Result<CourseData>)
    | ProblemAnswer(problem: Result<ProblemData>)
    | TimeAnswer(time: Result<Time>)

  /** Since a request that could not load the course, no request for the course reads an earlier
      clock; a load does not end before it starts. */
  predicate ClockStays(requests: seq<Request>) {
    && (forall i | 0 <= i < |requests| :: requests[i].started <= requests[i].done)
    && forall i, j | 0 <= i < j < |requests| && requests[i].IsForCourse() && requests[j].IsForCourse() ::
         !requests[i].IsCompleteCourseLoad() ==> requests[i].now <= requests[j].now
  }

  /** Request `j` is this one, or ended less than ten seconds before it. */
  predicate IsRecent(requests: seq<Request>, i: nat, j: nat) {
    j <= i < |requests| && (j < i ==> requests[i].now < requests[j].done + 10_000)
  }

  predicate CourseCameFrom(requests: seq<Request>, j: nat, courseId: string, data: CourseData) {
    j < |requests| && requests[j].IsCompleteCourseLoad() && IsWholeCourse(data, courseId, requests[j].call.course)
  }

  /** Not before the files of the course that request `j` loaded. */
  ghost predicate CoversCourse(requests: seq<Request>, j: nat, time: Time) {
    && j < |requests| && requests[j].IsCompleteCourseLoad() && time >= 0
    && forall t | CountsForCourse(CourseFilesOf(requests[j].call.course), t) :: time >= t
  }

  /** The epoch, or the time of a file that one of the first `n` requests met and that counts for
      the course. */
  predicate WasMet(requests: seq<Request>, n: nat, time: Time) {
    time == 0 || exists k :: 0 <= k < n && k < |requests| && CountsForCourse(requests[k].Files(), time)
  }

  predicate ProblemCameFrom(requests: seq<Request>, j: nat, id: string, data: ProblemData) {
    j < |requests| && requests[j].IsCompleteProblemLoad(id) && data == ProblemData(id, requests[j].call.files.content)
  }

  /** The newest file of the problem, or the epoch. */
  ghost predicate IsProblemTime(requests: seq<Request>, j: nat, id: string, time: Time) {
    && j < |requests| && requests[j].IsCompleteProblemLoad(id)
    && (time == 0 || CountsForProblem(requests[j].call.files.All(), time))
    && forall t | CountsForProblem(requests[j].call.files.All(), t) :: time >= t
  }

  /** What is promised of each answer. */
  ghost predicate IsJustified(courseId: string, requests: seq<Request>, i: nat, answer: Answer)
    requires i < |requests|
  {
    match requests[i].call
    case Course(course) =>
      answer.CourseAnswer? &&
      if answer.course.Ok? then exists j ::
          IsRecent(requests, i, j) && CourseCameFrom(requests, j, courseId, answer.course.value)
      else !CourseSucceeds(course)
    case CourseTime(course) =>
      answer.TimeAnswer? &&
      if answer.time.Ok? then
        WasMet(requests, i + 1, answer.time.value)
        && exists j :: IsRecent(requests, i, j) && CoversCourse(requests, j, answer.time.value)
      else !CourseSucceeds(course)
    case Problem(id, files) =>
      answer.ProblemAnswer? &&
      if answer.problem.Ok? then exists j ::
          IsRecent(requests, i, j) && ProblemCameFrom(requests, j, id, answer.problem.value)
      else !AllOk(files.All(), true)
    case ProblemTime(id, files) =>
      answer.TimeAnswer? &&
      if answer.time.Ok? then exists j :: IsRecent(requests, i, j) && IsProblemTime(requests, j, id, answer.time.value)
      else !AllOk(files.All(), true)
  }

  // ---------------------------------------------------------------- the invariant between requests

  /** The item holds what request `j` loaded. */
  ghost predicate HoldsCourse(cache: CacheItem<CourseData>, courseId: string, requests: seq<Request>, j: nat) {
    && cache.data.Some? && CourseCameFrom(requests, j, courseId, cache.data.value)
    && cache.lastModified.Some? && CoversCourse(requests, j, cache.lastModified.value)
    && cache.lastChecked.Some? && cache.lastChecked.value <= requests[j].done
  }

  ghost predicate HoldsProblem(item: CacheItem<ProblemData>, id: string, requests: seq<Request>, j: nat) {
    && item.data.Some? && ProblemCameFrom(requests, j, id, item.data.value)
    && item.lastModified.Some? && IsProblemTime(requests, j, id, item.lastModified.value)
    && item.lastChecked.Some? && item.lastChecked.value <= requests[j].done
  }

  ghost predicate HeldCourse(cache: CacheItem<CourseData>, courseId: string, requests: seq<Request>, i: nat) {
    && (exists j: nat :: j < i && HoldsCourse(cache, courseId, requests, j))
    && cache.lastModified.Some? && WasMet(requests, i, cache.lastModified.value)
  }

  /** The item holds a complete load, or no request still to come will be served from it. */
  ghost predicate CourseTrusted(cache: CacheItem<CourseData>, courseId: string, requests: seq<Request>, i: nat) {
    && (cache.lastChecked.Some? ==> cache.data.Some?)
    && (HeldCourse(cache, courseId, requests, i)
        || forall k | i <= k < |requests| && requests[k].IsForCourse() :: cache.IsStale(requests[k].now))
  }

  ghost predicate ProblemTrusted(item: CacheItem<ProblemData>, id: string, requests: seq<Request>, i: nat) {
    item.data.Some? && item.lastChecked.Some? && item.loadError.None? ==>
      exists j: nat :: j < i && HoldsProblem(item, id, requests, j)
  }

  ghost predicate ProblemsTrusted(cache: ProblemsCache, requests: seq<Request>, i: nat) {
    forall id | id in cache :: ProblemTrusted(cache[id], id, requests, i)
  }

  lemma StaysTrusted(cache: ProblemsCache, after: ProblemsCache, ids: set<string>, requests: seq<Request>, i: nat)
    requires ProblemsTrusted(cache, requests, i) && OnlyEvicts(cache, after, ids)
    ensures ProblemsTrusted(after, requests, i + 1)
  {
    forall id | id in after ensures ProblemTrusted(after[id], id, requests, i + 1) {
      if after[id].data.Some? {
        assert id in cache && after[id] == cache[id] && ProblemTrusted(cache[id], id, requests, i);
      }
    }
  }

  lemma HeldStays(cache: CacheItem<CourseData>, courseId: string, requests: seq<Request>, i: nat)
    requires HeldCourse(cache, courseId, requests, i)
    ensures HeldCourse(cache, courseId, requests, i + 1)
  {
    var j: nat :| j < i && HoldsCourse(cache, courseId, requests, j);
    assert j < i + 1;
  }

  lemma CourseLoadCovers(requests: seq<Request>, i: nat)
    requires i < |requests| && requests[i].IsCompleteCourseLoad()
    ensures var stamp := CourseTouched(Some(0), CourseFilesOf(requests[i].call.course));
            stamp.Some? && CoversCourse(requests, i, stamp.value) && WasMet(requests, i + 1, stamp.value)
  {
    CourseTouchedIsMaximum(0, CourseFilesOf(requests[i].call.course));
  }

  lemma ProblemLoadTime(requests: seq<Request>, i: nat, base: Option<Time>)
    requires i < |requests| && (requests[i].call.Problem? || requests[i].call.ProblemTime?)
    requires AllOk(requests[i].call.files.All(), false) && (base == None || base == Some(0))
    ensures var stamp := ProblemTouched(base, requests[i].call.files.All());
            stamp.Some? && IsProblemTime(requests, i, requests[i].call.id, stamp.value)
  {
    ProblemHasStamp(requests[i].call.files);
    ProblemTouchedIsMaximum(base, requests[i].call.files.All());
    ProblemTouchedIsMaximum(None, requests[i].call.files.All());
  }

  // ---------------------------------------------------------------- one request

  lemma CourseServed(id: string, requests: seq<Request>, i: nat,
                     before: CacheItem<CourseData>, after: CacheItem<CourseData>, r: Result<CourseData>)
    requires i < |requests| && ClockStays(requests) && requests[i].call.Course?
    requires CourseTrusted(before, id, requests, i)
    requires var request := requests[i];
             if before.IsStale(request.now) then
               (r.Ok? <==> CourseSucceeds(request.call.course))
               && AfterReload(id, before, after, request.call.course, request.done, before.loadError)
               && (r.Ok? ==> IsWholeCourse(r.value, id, request.call.course))
             else r == Ok(before.data.value) && after == before
    ensures CourseTrusted(after, id, requests, i + 1)
    ensures IsJustified(id, requests, i, CourseAnswer(r))
  {
    if before.IsStale(requests[i].now) {
      CourseReloaded(id, requests, i, before, after, before.loadError);
      if r.Ok? {
        assert IsRecent(requests, i, i) && CourseCameFrom(requests, i, id, r.value);
      }
    } else {
      var j: nat :| j < i && HoldsCourse(before, id, requests, j);
      assert IsRecent(requests, i, j);
      HeldStays(before, id, requests, i);
    }
  }

  /** A load that failed keeps the reasons that the item was stale for: they still hold when the
      next request for the course is made. */
  lemma CourseReloaded(id: string, requests: seq<Request>, i: nat,
                       before: CacheItem<CourseData>, after: CacheItem<CourseData>, error: Option<Failure>)
    requires i < |requests| && ClockStays(requests) && requests[i].IsForCourse()
    requires CourseTrusted(before, id, requests, i) && before.IsStale(requests[i].now)
    requires AfterReload(id, before, after, requests[i].call.course, requests[i].done, error)
    requires error.Some? || error == before.loadError
    ensures CourseTrusted(after, id, requests, i + 1)
  {
    if CourseSucceeds(requests[i].call.course) {
      CourseLoadCovers(requests, i);
      WholeCourseIff(after.data.value, id, requests[i].call.course);
      assert HoldsCourse(after, id, requests, i);
    } else {
      forall k | i + 1 <= k < |requests| && requests[k].IsForCourse() ensures after.IsStale(requests[k].now) {
        assert requests[i].now <= requests[k].now;
      }
    }
  }

  lemma CourseTimeServed(id: string, requests: seq<Request>, i: nat,
                         before: CacheItem<CourseData>, after: CacheItem<CourseData>, r: Result<Time>)
    requires i < |requests| && ClockStays(requests) && requests[i].call.CourseTime?
    requires CourseTrusted(before, id, requests, i)
    requires var request := requests[i];
             if before.IsStale(request.now) then
               (r.Ok? <==> CourseSucceeds(request.call.course))
               && AfterReload(id, before, after, request.call.course, request.done,
                              if r.Ok? then None else Some(r.error))
               && (r.Ok? ==> Some(r.value) == CourseTouched(Some(0), CourseFilesOf(request.call.course)))
             else before.lastModified.Some? && r == Ok(before.lastModified.value) && after == before
    ensures CourseTrusted(after, id, requests, i + 1)
    ensures IsJustified(id, requests, i, TimeAnswer(r))
  {
    if before.IsStale(requests[i].now) {
      CourseReloaded(id, requests, i, before, after, if r.Ok? then before.loadError else Some(r.error));
      if r.Ok? {
        CourseLoadCovers(requests, i);
        assert IsRecent(requests, i, i) && CoversCourse(requests, i, r.value);
      }
    } else {
      var j: nat :| j < i && HoldsCourse(before, id, requests, j);
      assert IsRecent(requests, i, j);
      HeldStays(before, id, requests, i);
    }
  }

  lemma ProblemServed(courseId: string, requests: seq<Request>, i: nat, tracked: bool,
                      before: ProblemsCache, after: ProblemsCache, r: Result<ProblemData>)
    requires i < |requests| && ClockStays(requests) && requests[i].call.Problem?
    requires ProblemsTrusted(before, requests, i)
    requires var Request(Problem(id, files), now, _, done) := requests[i];
             if id !in before || before[id].IsStale(now) then
               (r.Ok? <==> AllOk(files.All(), tracked))
               && id in after && after == before[id := after[id]]
               && (if r.Ok? then
                     r.value == ProblemData(id, files.content)
                     && after[id] == CacheItem(Some(r.value), ProblemTouched(None, files.All()), Some(done), None)
                   else after[id].IsBlank())
             else r == Ok(before[id].data.value) && after == before
    ensures ProblemsTrusted(after, requests, i + 1)
    ensures IsJustified(courseId, requests, i, ProblemAnswer(r))
  {
    var id, files := requests[i].call.id, requests[i].call.files;
    StaysTrusted(before, before, {}, requests, i);
    if id !in before || before[id].IsStale(requests[i].now) {
      if r.Ok? {
        ProblemLoadTime(requests, i, None);
        assert IsRecent(requests, i, i) && ProblemCameFrom(requests, i, id, r.value);
        assert HoldsProblem(after[id], id, requests, i);
      }
    } else {
      assert ProblemTrusted(before[id], id, requests, i);
      var j: nat :| j < i && HoldsProblem(before[id], id, requests, j);
      assert IsRecent(requests, i, j);
    }
  }

  lemma ProblemTimeServed(courseId: string, requests: seq<Request>, i: nat, tracked: bool,
                          before: ProblemsCache, after: ProblemsCache, r: Result<Time>)
    requires i < |requests| && ClockStays(requests) && requests[i].call.ProblemTime?
    requires ProblemsTrusted(before, requests, i)
    requires var Request(ProblemTime(id, files), now, started, _) := requests[i];
             if id !in before || before[id].IsStale(now) then
               (r.Ok? <==> AllOk(files.All(), tracked))
               && id in after && after == before[id := after[id]]
               && (if r.Ok? then
                     after[id] == CacheItem(Some(ProblemData(id, files.content)),
                         ProblemTouched(Some(0), files.All()), Some(started), None)
                     && Some(r.value) == after[id].lastModified
                   else after[id].loadError.Some?)
             else before[id].lastModified.Some? && r == Ok(before[id].lastModified.value) && after == before
    ensures ProblemsTrusted(after, requests, i + 1)
    ensures IsJustified(courseId, requests, i, TimeAnswer(r))
  {
    var id, files := requests[i].call.id, requests[i].call.files;
    StaysTrusted(before, before, {}, requests, i);
    if id !in before || before[id].IsStale(requests[i].now) {
      if r.Ok? {
        ProblemLoadTime(requests, i, Some(0));
        assert IsRecent(requests, i, i) && IsProblemTime(requests, i, id, r.value);
        assert HoldsProblem(after[id], id, requests, i);
      }
    } else {
      assert ProblemTrusted(before[id], id, requests, i);
      var j: nat :| j < i && HoldsProblem(before[id], id, requests, j);
      assert IsRecent(requests, i, j);
    }
  }

  /** Loading a problem moves the last-modified time of a served course at most up, to the time of
      one of the problem's files. */
  lemma CourseStaysTrusted(id: string, requests: seq<Request>, i: nat,
                           before: CacheItem<CourseData>, after: CacheItem<CourseData>)
    requires i < |requests| && !requests[i].IsForCourse() && CourseTrusted(before, id, requests, i)
    requires OnlyCourseStampRises(before, after, requests[i].call.files, false)
    ensures CourseTrusted(after, id, requests, i + 1)
  {
    if HeldCourse(before, id, requests, i) {
      var j: nat :| j < i && HoldsCourse(before, id, requests, j);
      assert HoldsCourse(after, id, requests, j) && j < i + 1;
      assert WasMet(requests, i + 1, after.lastModified.value);
    }
  }

  // ---------------------------------------------------------------- any sequence of requests

  ghost predicate Trusts(loader: CourseLoader, requests: seq<Request>, i: nat)
    reads loader
  {
    && loader.Valid()
    && CourseTrusted(loader.courseCache, loader.courseId, requests, i)
    && ProblemsTrusted(loader.problemsCache, requests, i)
  }

  method Serve(loader: CourseLoader, requests: seq<Request>, i: nat) returns (answer: Answer)
    requires i < |requests| && ClockStays(requests)
    requires Trusts(loader, requests, i)
    modifies loader
    ensures Trusts(loader, requests, i + 1)
    ensures IsJustified(loader.courseId, requests, i, answer)
  {
    var Request(call, now, started, done) := requests[i];
    ghost var course, problems := loader.courseCache, loader.problemsCache;
    match call {
      case Course(onDisk) =>
        var r := loader.GetCourseData(onDisk, now, done);
        StaysTrusted(problems, loader.problemsCache, CourseProblemIds(onDisk), requests, i);
        CourseServed(loader.courseId, requests, i, course, loader.courseCache, r);
        answer := CourseAnswer(r);
      case CourseTime(onDisk) =>
        var r := loader.GetCourseLastModified(onDisk, now, done);
        StaysTrusted(problems, loader.problemsCache, CourseProblemIds(onDisk), requests, i);
        CourseTimeServed(loader.courseId, requests, i, course, loader.courseCache, r);
        answer := TimeAnswer(r);
      case Problem(id, files) =>
        var r := loader.GetProblemData(id, files, now, done);
        CourseStaysTrusted(loader.courseId, requests, i, course, loader.courseCache);
        ProblemServed(loader.courseId, requests, i, course.lastModified.Some?, problems, loader.problemsCache, r);
        answer := ProblemAnswer(r);
      case ProblemTime(id, files) =>
        var r := loader.GetProblemLastModified(id, files, now, started);
        CourseStaysTrusted(loader.courseId, requests, i, course, loader.courseCache);
        ProblemTimeServed(loader.courseId, requests, i, course.lastModified.Some?, problems,
            loader.problemsCache, r);
        answer := TimeAnswer(r);
    }
  }

  /** Every answer of a fresh loader is justified by one complete load. */
  method ServeAll(courseId: string, requests: seq<Request>) returns (answers: seq<Answer>)
    requires ClockStays(requests)
    ensures |answers| == |requests|
    ensures forall i | 0 <= i < |requests| :: IsJustified(courseId, requests, i, answers[i])
  {
    var loader := new CourseLoader(courseId);
    answers := [];
    for i := 0 to |requests|
      invariant |answers| == i && loader.courseId == courseId && fresh(loader)
      invariant Trusts(loader, requests, i)
      invariant forall k | 0 <= k < i :: IsJustified(courseId, requests, k, answers[k])
    {
      var answer := Serve(loader, requests, i);
      answers := answers + [answer];
    }
  }

  // ---------------------------------------------------------------- why the clock must not go back

  /** What a failed load of a course leaves in its item is served at `later` if and only if no
      error is remembered and the last check, from before the failure, is less than ten seconds
      old; for the item to have been reloaded at `now`, the clock must then have been set back. */
  lemma LeftBehindIsServedIff(id: string, before: CacheItem<CourseData>, after: CacheItem<CourseData>,
                              broken: CourseOnDisk, now: Time, done: Time, later: Time)
    requires before.lastChecked.Some? ==> before.data.Some?
    requires before.IsStale(now) && !CourseSucceeds(broken)
    requires AfterReload(id, before, after, broken, done, before.loadError)
    ensures !after.IsStale(later) <==> ServesAgain(before, later)
    ensures ServesAgain(before, later) ==> later < now && LeftBehind(id, broken, before.data, after.data)
  {
  }

  /** A caller can tell from the item before the failed load. */
  predicate ServesAgain(before: CacheItem<CourseData>, later: Time) {
    before.loadError.None? && before.lastChecked.Some? && later < before.lastChecked.value + 10_000
  }

  /** Two requests for the course, of which the first meets a course that cannot be loaded: the
      second is answered with what the failed load left behind exactly when the clock was set back
      far enough, and by a new load otherwise. */
  method RequestTwice(loader: CourseLoader, broken: CourseOnDisk, now: Time, done: Time,
                      next: CourseOnDisk, later: Time, laterDone: Time)
    returns (second: Result<CourseData>)
    requires loader.Valid() && (loader.courseCache.lastChecked.Some? ==> loader.courseCache.data.Some?)
    requires loader.courseCache.IsStale(now) && !CourseSucceeds(broken)
    modifies loader
    ensures ServesAgain(old(loader.courseCache), later) ==>
              later < now && second.Ok?
              && LeftBehind(loader.courseId, broken, old(loader.courseCache.data), Some(second.value))
    ensures !ServesAgain(old(loader.courseCache), later) ==>
              (second.Ok? <==> CourseSucceeds(next))
              && (second.Ok? ==> IsWholeCourse(second.value, loader.courseId, next))
  {
    ghost var before := loader.courseCache;
    var first := loader.GetCourseData(broken, now, done);
    LeftBehindIsServedIff(loader.courseId, before, loader.courseCache, broken, now, done, later);
    second := loader.GetCourseData(next, later, laterDone);
  }

  /** If the course's own files were readable, what is then served are the whole sections in front of
      the first that has a file that could not be loaded. */
  lemma LeftBehindIsPartial(id: string, broken: CourseOnDisk, before: Option<CourseData>, served: CourseData)
    requires LeftBehind(id, broken, before, Some(served)) && AllOk(broken.files, true)
    ensures served.id == id && served.description == broken.description
    ensures match broken.layout
            case Sectioned(sections) =>
              exists n: nat :: BreaksAt(sections, n) && AreWholeSections(served.sections, sections[..n])
            case Flat(_) => served.sections == []
  {
    if broken.layout.Sectioned? {
      var sections := broken.layout.sections;
      var n: nat :| IsFirstFailing(sections, n) && Some(served) == Some(PartialCourse(id, broken, n));
      FirstFailingIff(sections, n);
      WholeSectionsIff(served.sections, sections[..n]);
    }
  }

  /** One such clock: a course was loaded at 100 s, its section is lost at 200 s, and at 105 s on a
      clock set back it is served without the section. */
  method ServesPartialCourse(courseId: string) returns (served: Result<CourseData>, section: SectionFiles)
    ensures served == Ok(CourseData(courseId, "", []))
    ensures !IsWholeCourse(served.value, courseId, CourseOnDisk("", "", [], Sectioned([section])))
  {
    var good := CourseOnDisk("", "", [], Sectioned([SectionFiles("s", "", File(Some(1), true, true, false), [])]));
    var broken := CourseOnDisk("", "", [], Sectioned([SectionFiles("s", "", File(Some(2), false, true, false), [])]));
    section := broken.layout.sections[0];
    assert section.yaml in CourseFilesOf(broken) && !FileOk(section.yaml, true);
    assert CourseFilesOf(good) == [good.layout.sections[0].yaml];
    var loader := new CourseLoader(courseId);
    served := loader.GetCourseData(good, 100_000, 100_000);
    served := RequestTwice(loader, broken, 200_000, 200_000, good, 105_000, 105_000);
    assert broken.layout.sections[..0] == [];
  }
}
