/**
 * The in-memory feedback repository: managers' 1–5 ratings of an
 * employee's skill, appended to one list, queried by employee, skill and
 * date, averaged, and summarised per skill. The current time and its
 * calendar date are parameters of `StoreFeedback`.
 */
module FeedbackRepo {
  import opened Wrappers
  import opened Dict
  import opened Seqs
  import opened Sorting

  /** `FeedbackRating`: one of 1, 2, 3, 4, 5. */
  type Rating = r: int | 1 <= r <= 5 witness 1

  datatype FeedbackEntry = FeedbackEntry(
    managerId: string, managerName: string, employeeId: string, employeeName: string,
    skill: string, rating: Rating, date: string, timestamp: int)

  /** JavaScript's `a <= b` on strings: lexicographic by code unit. */
  predicate StringLe(a: string, b: string) {
    if a == [] then true
    else if b == [] then false
    else if a[0] != b[0] then a[0] < b[0]
    else StringLe(a[1..], b[1..])
  }

  function OfEmployee(employeeId: string): FeedbackEntry -> bool {
    (e: FeedbackEntry) => e.employeeId == employeeId
  }

  function OfSkill(skill: string): FeedbackEntry -> bool {
    (e: FeedbackEntry) => e.skill == skill
  }

  function OfEmployeeAndSkill(employeeId: string, skill: string): FeedbackEntry -> bool {
    (e: FeedbackEntry) => e.employeeId == employeeId && e.skill == skill
  }

  /** `getFeedbackByEmployee` over the stored list. */
  function ByEmployee(s: seq<FeedbackEntry>, employeeId: string): (r: seq<FeedbackEntry>)
    ensures forall e :: e in r <==> e in s && e.employeeId == employeeId
    ensures |r| <= |s|
    ensures forall e :: multiset(r)[e] == if e.employeeId == employeeId then multiset(s)[e] else 0
    ensures IsSubsequence(r, s)
  {
    FilterMembership(s, OfEmployee(employeeId));
    FilterSubsequence(s, OfEmployee(employeeId));
    FilterLength(s, OfEmployee(employeeId));
    Filter(s, OfEmployee(employeeId))
  }

  /** `getFeedbackByEmployeeAndSkill` over the stored list. */
  function ByEmployeeAndSkill(s: seq<FeedbackEntry>, employeeId: string, skill: string): (r: seq<FeedbackEntry>)
    ensures forall e :: e in r <==> e in s && e.employeeId == employeeId && e.skill == skill
    ensures |r| <= |s|
    ensures forall e :: multiset(r)[e] == if e.employeeId == employeeId && e.skill == skill then multiset(s)[e] else 0
    ensures IsSubsequence(r, s)
  {
    FilterMembership(s, OfEmployeeAndSkill(employeeId, skill));
    FilterSubsequence(s, OfEmployeeAndSkill(employeeId, skill));
    FilterLength(s, OfEmployeeAndSkill(employeeId, skill));
    Filter(s, OfEmployeeAndSkill(employeeId, skill))
  }

  /** `getFeedbackByDate` over the stored list. */
  function ByDate(s: seq<FeedbackEntry>, date: string): (r: seq<FeedbackEntry>)
    ensures forall e :: e in r <==> e in s && e.date == date
    ensures forall e :: multiset(r)[e] == if e.date == date then multiset(s)[e] else 0
    ensures IsSubsequence(r, s)
  {
    FilterMembership(s, (e: FeedbackEntry) => e.date == date);
    FilterSubsequence(s, (e: FeedbackEntry) => e.date == date);
    Filter(s, (e: FeedbackEntry) => e.date == date)
  }

  /** `getFeedbackByDateRange`: both ends included. */
  function ByDateRange(s: seq<FeedbackEntry>, startDate: string, endDate: string): (r: seq<FeedbackEntry>)
    ensures forall e :: e in r <==> e in s && StringLe(startDate, e.date) && StringLe(e.date, endDate)
    ensures forall e :: multiset(r)[e] == if StringLe(startDate, e.date) && StringLe(e.date, endDate) then multiset(s)[e] else 0
    ensures IsSubsequence(r, s)
  {
    FilterMembership(s, (e: FeedbackEntry) => StringLe(startDate, e.date) && StringLe(e.date, endDate));
    FilterSubsequence(s, (e: FeedbackEntry) => StringLe(startDate, e.date) && StringLe(e.date, endDate));
    Filter(s, (e: FeedbackEntry) => StringLe(startDate, e.date) && StringLe(e.date, endDate))
  }

  /** `entries.map(e => e.rating)` */
  function Ratings(es: seq<FeedbackEntry>): (r: seq<int>)
    ensures |r| == |es|
    ensures forall i :: 0 <= i < |r| ==> 1 <= r[i] <= 5
  {
    seq(|es|, i requires 0 <= i < |es| => es[i].rating as int)
  }

  /** The sum over the count; the source never divides by zero, and neither does this. */
  function Average(xs: seq<int>): real
    requires xs != []
  {
    Sum(xs) as real / |xs| as real
  }

  /** `getAverageRating`: `None` (`null`) when there is no such feedback, otherwise a mean within 1–5. */
  function AverageRating(s: seq<FeedbackEntry>, employeeId: string, skill: string): (r: Option<real>)
    ensures r.None? <==> ByEmployeeAndSkill(s, employeeId, skill) == []
    ensures r.Some? ==> 1.0 <= r.value <= 5.0
  {
    var entries := ByEmployeeAndSkill(s, employeeId, skill);
    if entries == [] then None
    else
      MeanBounds(Ratings(entries), 1, 5);
      Some(Average(Ratings(entries)))
  }

  /** `b.timestamp - a.timestamp` as a key, newest first. */
  function TimeKey(e: FeedbackEntry): real {
    e.timestamp as real
  }

  /** The end index `slice(0, limit)` uses on a list of length `n`: a negative limit counts from the end. */
  function SliceEnd(n: nat, limit: int): (r: nat)
    ensures r <= n
    ensures limit >= 0 ==> r == if limit < n then limit else n
    ensures limit < 0 ==> r + (if -limit < n then -limit else n) == n
  {
    if limit < 0 then (if n + limit < 0 then 0 else n + limit)
    else if limit < n then limit
    else n
  }

  /** The per-skill record of `getFeedbackStats`. */
  datatype SkillStat = SkillStat(count: nat, average: real, ratings: seq<int>)

  datatype FeedbackStats = FeedbackStats(totalFeedback: nat, overallAverage: real, skillStats: Dict<SkillStat>)

  /** The record `{ count: 0, average: 0, ratings: [] }` given to a skill seen for the first time. */
  const EmptyStat := SkillStat(0, 0.0, [])

  /** One step of the `forEach`: count the entry and push its rating under its skill. */
  function TallyStep(d: Dict<SkillStat>, e: FeedbackEntry): Dict<SkillStat> {
    Put(d, e.skill, Bump(Get(d, e.skill).GetOr(EmptyStat), e))
  }

  /** `count++` and `ratings.push(entry.rating)` */
  function Bump(st: SkillStat, e: FeedbackEntry): SkillStat {
    SkillStat(st.count + 1, st.average, st.ratings + [e.rating as int])
  }

  /** The per-skill counts and ratings after the `forEach` over `es`. */
  function Tally(es: seq<FeedbackEntry>): Dict<SkillStat> {
    if es == [] then [] else TallyStep(Tally(es[..|es| - 1]), es[|es| - 1])
  }

  /** The average a skill's record gets in the second pass (never reached with no ratings). */
  function WithAverage(st: SkillStat): SkillStat {
    if st.ratings == [] then st else st.(average := Average(st.ratings))
  }

  /** The records after the second pass over `Object.keys(skillStats)`. */
  function WithAverages(d: Dict<SkillStat>): Dict<SkillStat> {
    seq(|d|, i requires 0 <= i < |d| => (d[i].0, WithAverage(d[i].1)))
  }

  /** `getFeedbackStats`: `None` (`null`) for an employee with no feedback. */
  function StatsOf(s: seq<FeedbackEntry>, employeeId: string): Option<FeedbackStats> {
    var es := ByEmployee(s, employeeId);
    if es == [] then None
    else Some(FeedbackStats(|es|, Average(Ratings(es)), WithAverages(Tally(es))))
  }

  class Repository {
    /** `feedbackStorage` */
    var storage: seq<FeedbackEntry>

    constructor()
      ensures storage == []
    {
      storage := [];
    }

    /** `storeFeedback`: `now` is the time in milliseconds and `today` its `YYYY-MM-DD` date. */
    method StoreFeedback(
      managerId: string, managerName: string, employeeId: string, employeeName: string,
      skill: string, rating: Rating, now: int, today: string)
      returns (entry: FeedbackEntry)
      modifies this
      ensures entry == FeedbackEntry(managerId, managerName, employeeId, employeeName, skill, rating, today, now)
      ensures storage == old(storage) + [entry]
    {
      entry := FeedbackEntry(managerId, managerName, employeeId, employeeName, skill, rating, today, now);
      storage := storage + [entry];
    }

    method GetFeedbackByEmployee(employeeId: string) returns (r: seq<FeedbackEntry>)
      ensures r == ByEmployee(storage, employeeId)
    {
      r := ByEmployee(storage, employeeId);
    }

    method GetFeedbackByEmployeeAndSkill(employeeId: string, skill: string) returns (r: seq<FeedbackEntry>)
      ensures r == ByEmployeeAndSkill(storage, employeeId, skill)
    {
      r := ByEmployeeAndSkill(storage, employeeId, skill);
    }

    method GetFeedbackByDate(date: string) returns (r: seq<FeedbackEntry>)
      ensures r == ByDate(storage, date)
    {
      r := ByDate(storage, date);
    }

    method GetFeedbackByDateRange(startDate: string, endDate: string) returns (r: seq<FeedbackEntry>)
      ensures r == ByDateRange(storage, startDate, endDate)
    {
      r := ByDateRange(storage, startDate, endDate);
    }

    method GetAverageRating(employeeId: string, skill: string) returns (r: Option<real>)
      ensures r == AverageRating(storage, employeeId, skill)
    {
      r := AverageRating(storage, employeeId, skill);
    }

    /** `getAllFeedback`: a copy of the list. */
    method GetAllFeedback() returns (r: seq<FeedbackEntry>)
      ensures r == storage
    {
      r := storage;
    }

    /** `clearAllFeedback` */
    method ClearAllFeedback()
      modifies this
      ensures storage == []
    {
      storage := [];
    }

    /**
     * `getRecentFeedback(limit = 10)`: sorts the stored list itself, newest
     * first, and returns its first `limit` entries.
     */
    method GetRecentFeedback(limit: Option<int>) returns (r: seq<FeedbackEntry>)
      modifies this
      ensures storage == SortDesc(old(storage), TimeKey)
      ensures r == storage[..SliceEnd(|storage|, limit.GetOr(10))]
    {
      storage := SortDesc(storage, TimeKey);
      r := storage[..SliceEnd(|storage|, limit.GetOr(10))];
    }

    /** `getFeedbackStats` */
    method GetFeedbackStats(employeeId: string) returns (r: Option<FeedbackStats>)
      ensures r == StatsOf(storage, employeeId)
    {
      var entries := ByEmployee(storage, employeeId);
      if |entries| == 0 {
        return None;
      }
      var skillStats := TallySkills(entries);
      skillStats := AverageSkills(skillStats);
      r := Some(FeedbackStats(|entries|, Average(Ratings(entries)), skillStats));
    }
  }

  /** The `forEach` over the entries that counts and collects ratings per skill. */
  method TallySkills(entries: seq<FeedbackEntry>) returns (skillStats: Dict<SkillStat>)
    ensures skillStats == Tally(entries)
  {
    skillStats := [];
    var i := 0;
    while i < |entries|
      invariant 0 <= i <= |entries|
      invariant skillStats == Tally(entries[..i])
    {
      assert entries[..i + 1][..i] == entries[..i];
      skillStats := TallyStep(skillStats, entries[i]);
      i := i + 1;
    }
    assert entries[..i] == entries;
  }

  /** The `forEach` over `Object.keys(skillStats)` that sets each skill's average. */
  method AverageSkills(tallied: Dict<SkillStat>) returns (skillStats: Dict<SkillStat>)
    ensures skillStats == WithAverages(tallied)
  {
    skillStats := tallied;
    var j := 0;
    while j < |skillStats|
      invariant 0 <= j <= |skillStats| == |tallied|
      invariant forall k :: 0 <= k < j ==> skillStats[k] == WithAverages(tallied)[k]
      invariant forall k :: j <= k < |skillStats| ==> skillStats[k] == tallied[k]
    {
      var (skill, st) := skillStats[j];
      skillStats := skillStats[j := (skill, WithAverage(st))];
      j := j + 1;
    }
  }

  // ---------------------------------------------------------------------------
  // Lemmas

  /** The sum of the per-skill counts. */
  function CountSum(d: Dict<SkillStat>): nat {
    if d == [] then 0 else d[0].1.count + CountSum(d[1..])
  }

  lemma {:induction false} StringLeReflexive(a: string)
    ensures StringLe(a, a)
  {
    if a != [] {
      StringLeReflexive(a[1..]);
    }
  }

  lemma {:induction false} StringLeAntisymmetric(a: string, b: string)
    requires StringLe(a, b) && StringLe(b, a)
    ensures a == b
  {
    if a != [] && b != [] {
      StringLeAntisymmetric(a[1..], b[1..]);
      assert a == [a[0]] + a[1..] && b == [b[0]] + b[1..];
    }
  }

  /** A range from a date to itself selects exactly that date's feedback, in the same order. */
  lemma ByDateRangeOneDay(s: seq<FeedbackEntry>, date: string)
    ensures ByDateRange(s, date, date) == ByDate(s, date)
  {
    StringLeReflexive(date);
    forall i | 0 <= i < |s|
      ensures (StringLe(date, s[i].date) && StringLe(s[i].date, date)) == (s[i].date == date)
    {
      if StringLe(date, s[i].date) && StringLe(s[i].date, date) {
        StringLeAntisymmetric(date, s[i].date);
      }
    }
    FilterCongruent(s, (e: FeedbackEntry) => StringLe(date, e.date) && StringLe(e.date, date),
                       (e: FeedbackEntry) => e.date == date);
  }

  /** Storing one entry extends exactly the query results it belongs to, at their end. */
  lemma StoreExtendsQueries(s: seq<FeedbackEntry>, e: FeedbackEntry, employeeId: string, skill: string)
    ensures ByEmployee(s + [e], employeeId)
         == ByEmployee(s, employeeId) + (if e.employeeId == employeeId then [e] else [])
    ensures ByEmployeeAndSkill(s + [e], employeeId, skill)
         == ByEmployeeAndSkill(s, employeeId, skill) + (if e.employeeId == employeeId && e.skill == skill then [e] else [])
    ensures AverageRating(s + [e], e.employeeId, e.skill).Some?
  {
    assert (s + [e])[..|s + [e]| - 1] == s;
    assert e in ByEmployeeAndSkill(s + [e], e.employeeId, e.skill);
  }

  /**
   * `getRecentFeedback` returns the newest entries: the stored list becomes
   * a permutation of itself ordered newest first, and no entry left out of
   * the answer is newer than one in it. The answer's length is `limit`
   * capped at the list's, or the list's minus `-limit` for a negative one.
   */
  lemma RecentAreNewest(s: seq<FeedbackEntry>, limit: int)
    ensures multiset(SortDesc(s, TimeKey)) == multiset(s)
    ensures |SortDesc(s, TimeKey)| == |s|
    ensures SortedDesc(SortDesc(s, TimeKey)[..SliceEnd(|s|, limit)], TimeKey)
    ensures forall i, j :: 0 <= i < SliceEnd(|s|, limit) <= j < |s| ==>
      SortDesc(s, TimeKey)[i].timestamp >= SortDesc(s, TimeKey)[j].timestamp
    ensures 0 <= limit ==> SliceEnd(|s|, limit) == if limit < |s| then limit else |s|
  {
    SortDescCorrect(s, TimeKey);
    assert |multiset(SortDesc(s, TimeKey))| == |multiset(s)|;
  }

  /** What the tally holds for a skill whose entries are `f`. */
  function Record(f: seq<FeedbackEntry>): Option<SkillStat> {
    if f == [] then None else Some(SkillStat(|f|, 0.0, Ratings(f)))
  }

  lemma RecordStep(f: seq<FeedbackEntry>, e: FeedbackEntry)
    ensures Record(f + [e]) == Some(Bump(Record(f).GetOr(EmptyStat), e))
  {
    assert Ratings(f + [e]) == Ratings(f) + [e.rating as int];
  }

  lemma FilterSkillStep(es: seq<FeedbackEntry>, skill: string)
    requires es != []
    ensures Filter(es, OfSkill(skill)) ==
      Filter(es[..|es| - 1], OfSkill(skill)) + (if es[|es| - 1].skill == skill then [es[|es| - 1]] else [])
  {
  }

  /** A skill's record during the tally: its number of entries and their ratings in order. */
  lemma {:induction false} TallyGet(es: seq<FeedbackEntry>, skill: string)
    ensures Get(Tally(es), skill) == Record(Filter(es, OfSkill(skill)))
  {
    if es != [] {
      var init, last := es[..|es| - 1], es[|es| - 1];
      TallyGet(init, skill);
      FilterSkillStep(es, skill);
      var f0 := Filter(init, OfSkill(skill));
      TallyStepGet(Tally(init), last, skill);
      assert Tally(es) == TallyStep(Tally(init), last);
      if last.skill == skill {
        RecordStep(f0, last);
        assert Filter(es, OfSkill(skill)) == f0 + [last];
      } else {
        assert Filter(es, OfSkill(skill)) == f0;
      }
    }
  }

  /** One tally step: the entry's skill gets one more count and its rating; other skills are unchanged. */
  lemma TallyStepGet(d: Dict<SkillStat>, e: FeedbackEntry, skill: string)
    ensures Get(TallyStep(d, e), skill) ==
      if skill == e.skill then Some(Bump(Get(d, skill).GetOr(EmptyStat), e)) else Get(d, skill)
  {
  }

  lemma {:induction false} TallyDistinct(es: seq<FeedbackEntry>)
    ensures DistinctKeys(Tally(es))
  {
    if es != [] {
      var init, last := es[..|es| - 1], es[|es| - 1];
      TallyDistinct(init);
      TallyStepDistinct(Tally(init), last);
      assert Tally(es) == TallyStep(Tally(init), last);
    }
  }

  lemma TallyStepDistinct(d: Dict<SkillStat>, e: FeedbackEntry)
    requires DistinctKeys(d)
    ensures DistinctKeys(TallyStep(d, e))
  {
    PutDistinct(d, e.skill, Bump(Get(d, e.skill).GetOr(EmptyStat), e));
  }

  /** Assigning a key changes the count sum by the difference between its new and old counts. */
  lemma {:induction false} PutCountSum(d: Dict<SkillStat>, k: string, v: SkillStat)
    ensures CountSum(Put(d, k, v)) + Get(d, k).GetOr(EmptyStat).count == CountSum(d) + v.count
  {
    if d != [] && d[0].0 != k {
      PutCountSum(d[1..], k, v);
      assert Put(d, k, v)[1..] == Put(d[1..], k, v);
    } else if d != [] {
      assert Put(d, k, v)[1..] == d[1..];
    }
  }

  /** Every entry is counted once: the counts add up to the number of entries. */
  lemma {:induction false} TallyCount(es: seq<FeedbackEntry>)
    ensures CountSum(Tally(es)) == |es|
  {
    if es != [] {
      var init, last := es[..|es| - 1], es[|es| - 1];
      TallyCount(init);
      TallyStepCount(Tally(init), last);
      assert Tally(es) == TallyStep(Tally(init), last);
    }
  }

  lemma TallyStepCount(d: Dict<SkillStat>, e: FeedbackEntry)
    ensures CountSum(TallyStep(d, e)) == CountSum(d) + 1
  {
    PutCountSum(d, e.skill, Bump(Get(d, e.skill).GetOr(EmptyStat), e));
  }

  lemma {:induction false} WithAveragesGet(d: Dict<SkillStat>, k: string)
    ensures Get(WithAverages(d), k) == if Get(d, k).Some? then Some(WithAverage(Get(d, k).value)) else None
    ensures CountSum(WithAverages(d)) == CountSum(d)
    ensures Keys(WithAverages(d)) == Keys(d)
  {
    if d != [] {
      WithAveragesGet(d[1..], k);
      assert WithAverages(d)[1..] == WithAverages(d[1..]);
    }
  }

  /**
   * `getFeedbackStats` agrees with the other queries: an employee has stats
   * exactly when they have feedback; a skill has a record exactly when the
   * employee has feedback on it, and then its count and ratings are those of
   * `getFeedbackByEmployeeAndSkill` and its average is `getAverageRating`.
   */
  lemma StatsPerSkill(s: seq<FeedbackEntry>, employeeId: string, skill: string)
    ensures StatsOf(s, employeeId).None? <==> ByEmployee(s, employeeId) == []
    ensures StatsOf(s, employeeId).Some? ==>
      var st := Get(StatsOf(s, employeeId).value.skillStats, skill);
      var f := ByEmployeeAndSkill(s, employeeId, skill);
      && (st.Some? <==> f != [])
      && (st.Some? ==> st.value.count == |f| && st.value.ratings == Ratings(f)
                       && AverageRating(s, employeeId, skill) == Some(st.value.average))
  {
    var es := ByEmployee(s, employeeId);
    if es != [] {
      var f := Filter(es, OfSkill(skill));
      FilterFilterBy(s, OfEmployee(employeeId), OfSkill(skill), OfEmployeeAndSkill(employeeId, skill));
      assert f == ByEmployeeAndSkill(s, employeeId, skill);
      TallyGet(es, skill);
      WithAveragesGet(Tally(es), skill);
    }
  }

  /**
   * The totals of `getFeedbackStats`: the number of the employee's entries,
   * an overall average within 1–5, one record per skill, and per-skill
   * counts that add up to the total.
   */
  lemma StatsTotals(s: seq<FeedbackEntry>, employeeId: string)
    requires StatsOf(s, employeeId).Some?
    ensures StatsOf(s, employeeId).value.totalFeedback == |ByEmployee(s, employeeId)|
    ensures 1.0 <= StatsOf(s, employeeId).value.overallAverage <= 5.0
    ensures DistinctKeys(StatsOf(s, employeeId).value.skillStats)
    ensures CountSum(StatsOf(s, employeeId).value.skillStats) == StatsOf(s, employeeId).value.totalFeedback
  {
    var es := ByEmployee(s, employeeId);
    MeanBounds(Ratings(es), 1, 5);
    TallyDistinct(es);
    TallyCount(es);
    WithAveragesGet(Tally(es), "");
    var d := Tally(es);
    forall i, j | 0 <= i < j < |WithAverages(d)| ensures WithAverages(d)[i].0 != WithAverages(d)[j].0 {
      assert WithAverages(d)[i].0 == d[i].0 && WithAverages(d)[j].0 == d[j].0;
    }
  }
}
