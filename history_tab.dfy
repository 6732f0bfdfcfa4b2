/**
 * The history tab of frontend/src/tabs/EnhancedHistoryTab.jsx: the search
 * filter, the sort selector, the "time ago" labels and the stats counters, with
 * the component state they are kept in.
 */
module HistoryTab {
  import opened Wrappers
  import opened Schemas
  import opened HistoryOrder

  // ---------------------------------------------------------------- search

  /** toLowerCase on one character; only the ASCII letters are folded. */
  function LowerChar(c: char): (r: char)
    ensures 'A' <= c <= 'Z' ==> r as int == c as int + 32
    ensures !('A' <= c <= 'Z') ==> r == c
  {
    if 'A' <= c <= 'Z' then (c as int + 32) as char else c
  }

  function ToLower(s: string): (r: string)
    ensures |r| == |s| && forall i :: 0 <= i < |s| ==> r[i] == LowerChar(s[i])
  {
    seq(|s|, i requires 0 <= i < |s| => LowerChar(s[i]))
  }

  /** String.prototype.includes: does t occur in s, starting at some position? */
  function Includes(s: string, t: string): (r: bool)
    ensures t == [] ==> r
    ensures r ==> |t| <= |s|
  {
    if |t| > |s| then false
    else if s[..|t|] == t then true
    else Includes(s[1..], t)
  }

  /** t occurs in s starting at position i. */
  predicate OccursAt(s: string, t: string, i: int)
  {
    0 <= i <= |s| - |t| && s[i..i + |t|] == t
  }

  lemma {:induction false} IncludesIffOccurs(s: string, t: string)
    ensures Includes(s, t) <==> exists i :: OccursAt(s, t, i)
  {
    if |t| > |s| {
      assert forall i :: !OccursAt(s, t, i);
    } else if s[..|t|] == t {
      assert OccursAt(s, t, 0);
    } else {
      IncludesIffOccurs(s[1..], t);
      if exists i :: OccursAt(s, t, i) {
        var i :| OccursAt(s, t, i);
        assert i != 0;
        assert s[1..][i - 1..i - 1 + |t|] == s[i..i + |t|];
        assert OccursAt(s[1..], t, i - 1);
      }
      if exists i :: OccursAt(s[1..], t, i) {
        var i :| OccursAt(s[1..], t, i);
        assert s[i + 1..i + 1 + |t|] == s[1..][i..i + |t|];
        assert OccursAt(s, t, i + 1);
      }
    }
  }

  /** The filter predicate: the lowercased term occurs in the lowercased title or url. */
  function Matches(q: QuizHistory, searchTerm: string): (r: bool)
    ensures searchTerm == "" ==> r
  {
    Includes(ToLower(q.title), ToLower(searchTerm)) || Includes(ToLower(q.url), ToLower(searchTerm))
  }

  /** r is qs with some elements left out: the rest keep their order. */
  ghost predicate SubsequenceOf(r: seq<QuizHistory>, qs: seq<QuizHistory>)
    decreases |qs|
  {
    r == [] || (qs != [] && ((r[0] == qs[0] && SubsequenceOf(r[1..], qs[1..])) || SubsequenceOf(r, qs[1..])))
  }

  /** `quizzes.filter(...)`: the matching entries, in their original order. */
  function FilterQuizzes(qs: seq<QuizHistory>, searchTerm: string): (r: seq<QuizHistory>)
    ensures |r| <= |qs|
    ensures SubsequenceOf(r, qs)
    ensures forall q :: multiset(r)[q] == if Matches(q, searchTerm) then multiset(qs)[q] else 0
  {
    if qs == [] then []
    else
      var rest := FilterQuizzes(qs[1..], searchTerm);
      assert qs == [qs[0]] + qs[1..];
      if Matches(qs[0], searchTerm) then [qs[0]] + rest else rest
  }

  /** A quiz is shown exactly when it is in the list and matches. */
  lemma FilterKeepsExactlyMatches(qs: seq<QuizHistory>, searchTerm: string, q: QuizHistory)
    ensures q in FilterQuizzes(qs, searchTerm) <==> q in qs && Matches(q, searchTerm)
  {
    assert multiset(FilterQuizzes(qs, searchTerm))[q] > 0 <==> q in FilterQuizzes(qs, searchTerm);
    assert multiset(qs)[q] > 0 <==> q in qs;
  }

  /** With an empty search box nothing is filtered out. */
  lemma {:induction false} EmptyTermKeepsAll(qs: seq<QuizHistory>)
    ensures FilterQuizzes(qs, "") == qs
  {
    if qs != [] {
      EmptyTermKeepsAll(qs[1..]);
      assert Matches(qs[0], "");
      assert qs == [qs[0]] + qs[1..];
    }
  }

  /** The value of the sort selector. */
  function ParseSortKey(sortBy: string): (k: SortKey)
    ensures k == Unrecognized <==> sortBy !in {"newest", "oldest", "title"}
  {
    if sortBy == "newest" then Newest
    else if sortBy == "oldest" then Oldest
    else if sortBy == "title" then ByTitle
    else Unrecognized
  }

  /** The list on screen for a search term and sort value. */
  function Displayed(quizzes: seq<QuizHistory>, searchTerm: string, sortBy: string): (r: seq<QuizHistory>)
    ensures multiset(r) == multiset(FilterQuizzes(quizzes, searchTerm))
  {
    SortQuizzes(FilterQuizzes(quizzes, searchTerm), ParseSortKey(sortBy))
  }

  /**
   * The displayed list holds exactly the matching quizzes, each as often as in
   * the loaded list; 'newest' puts them newest first and 'oldest' oldest first.
   */
  lemma DisplayedIsSortedFilter(quizzes: seq<QuizHistory>, searchTerm: string, sortBy: string)
    ensures var d := Displayed(quizzes, searchTerm, sortBy);
      (forall q :: multiset(d)[q] == if Matches(q, searchTerm) then multiset(quizzes)[q] else 0)
      && (sortBy == "newest" ==> forall i, j :: 0 <= i < j < |d| ==> d[i].dateGenerated >= d[j].dateGenerated)
      && (sortBy == "oldest" ==> forall i, j :: 0 <= i < j < |d| ==> d[i].dateGenerated <= d[j].dateGenerated)
  {
    var f := FilterQuizzes(quizzes, searchTerm);
    SortIsOrderedPermutation(f, ParseSortKey(sortBy));
    SortByDate(f);
  }

  /** A value outside the selector's options shows the filtered list in loaded order. */
  lemma UnknownSortKeepsFilterOrder(quizzes: seq<QuizHistory>, searchTerm: string, sortBy: string)
    requires sortBy !in {"newest", "oldest", "title"}
    ensures Displayed(quizzes, searchTerm, sortBy) == FilterQuizzes(quizzes, searchTerm)
  {
    UnrecognizedKeepsOrder(FilterQuizzes(quizzes, searchTerm));
  }

  // ---------------------------------------------------------------- time ago

  const MsPerHour := 3600000
  const MsPerDay := 24 * MsPerHour

  /** The label getTimeAgo produces; FormattedDate stands for formatDate's text. */
  datatype TimeAgo = JustNow | HoursAgo(hours: int) | DaysAgo(days: int) | FormattedDate(date: int)

  /**
   * getTimeAgo on millisecond timestamps: whole hours elapsed, rounded down
   * (Euclidean division by a positive divisor is Math.floor).
   */
  function GetTimeAgo(date: int, now: int): (r: TimeAgo)
    ensures r == JustNow <==> now - date < MsPerHour
    ensures r.HoursAgo? ==>
      1 <= r.hours < 24
      && r.hours * MsPerHour <= now - date < (r.hours + 1) * MsPerHour
    ensures r.DaysAgo? ==>
      1 <= r.days < 7
      && r.days * MsPerDay <= now - date < (r.days + 1) * MsPerDay
    ensures r.FormattedDate? <==> now - date >= 7 * MsPerDay
    ensures r.FormattedDate? ==> r.date == date
  {
    var diffInHours := (now - date) / MsPerHour;
    if diffInHours < 1 then JustNow
    else if diffInHours < 24 then HoursAgo(diffInHours)
    else if diffInHours < 168 then DaysAgo(diffInHours / 24)
    else FormattedDate(date)
  }

  /** A date in the future reads "Just now". */
  lemma FutureIsJustNow(date: int, now: int)
    requires date > now
    ensures GetTimeAgo(date, now) == JustNow
  {
  }

  // ---------------------------------------------------------------- stats

  /** `quizzes.filter(q => date(q) > threshold).length`. */
  function CountSince(qs: seq<QuizHistory>, threshold: int): (n: nat)
    ensures n <= |qs|
  {
    if qs == [] then 0
    else CountSince(qs[1..], threshold) + (if qs[0].dateGenerated > threshold then 1 else 0)
  }

  /** A later threshold counts no more quizzes. */
  lemma {:induction false} CountSinceMonotone(qs: seq<QuizHistory>, later: int, earlier: int)
    requires earlier <= later
    ensures CountSince(qs, later) <= CountSince(qs, earlier)
  {
    if qs != [] {
      CountSinceMonotone(qs[1..], later, earlier);
    }
  }

  /** The four stat tiles: Total Quizzes, This Week, This Month, Active. */
  datatype Stats = Stats(total: nat, thisWeek: nat, thisMonth: nat, active: nat)

  function GetStats(qs: seq<QuizHistory>, now: int): (s: Stats)
    ensures s.thisWeek <= s.thisMonth <= s.total == |qs|
    ensures s.active == s.total
  {
    CountSinceMonotone(qs, now - 7 * MsPerDay, now - 30 * MsPerDay);
    Stats(|qs|, CountSince(qs, now - 7 * MsPerDay), CountSince(qs, now - 30 * MsPerDay), |qs|)
  }

  // ---------------------------------------------------------------- the component

  /**
   * The component's state. The effect on [quizzes, searchTerm, sortBy] runs
   * filterAndSortQuizzes after each change, so every setter below ends with it.
   */
  class HistoryTab {
    var quizzes: seq<QuizHistory>
    var filteredQuizzes: seq<QuizHistory>
    var loading: bool
    var searchTerm: string
    var sortBy: string

    /** The displayed list is the current filter and sort of the loaded list. */
    ghost predicate Valid()
      reads this
    {
      filteredQuizzes == Displayed(quizzes, searchTerm, sortBy)
    }

    constructor ()
      ensures Valid() && quizzes == [] && filteredQuizzes == [] && loading
      ensures searchTerm == "" && sortBy == "newest"
    {
      quizzes := [];
      filteredQuizzes := [];
      loading := true;
      searchTerm := "";
      sortBy := "newest";
    }

    /** filterAndSortQuizzes: filter, copy into an array, sort it in place, store it. */
    method FilterAndSortQuizzes()
      modifies this`filteredQuizzes
      ensures Valid()
    {
      var filtered := FilterQuizzes(quizzes, searchTerm);
      var a := new QuizHistory[|filtered|](i requires 0 <= i < |filtered| => filtered[i]);
      assert a[..] == filtered;
      SortInPlace(a, ParseSortKey(sortBy));
      filteredQuizzes := a[..];
    }

    /**
     * loadHistory, given what api.getQuizHistory resolved to (None when it
     * rejected): a loaded list replaces the old one, and loading ends either way.
     */
    method LoadHistory(history: Option<seq<QuizHistory>>)
      requires Valid()
      modifies this
      ensures Valid() && !loading
      ensures history.Some? ==> quizzes == history.value
      ensures history.None? ==> quizzes == old(quizzes) && filteredQuizzes == old(filteredQuizzes)
      ensures searchTerm == old(searchTerm) && sortBy == old(sortBy)
    {
      loading := false;
      if history.Some? {
        quizzes := history.value;
        FilterAndSortQuizzes();
      }
    }

    method SetSearchTerm(term: string)
      modifies this
      ensures Valid() && searchTerm == term
      ensures quizzes == old(quizzes) && sortBy == old(sortBy) && loading == old(loading)
    {
      searchTerm := term;
      FilterAndSortQuizzes();
    }

    method SetSortBy(value: string)
      modifies this
      ensures Valid() && sortBy == value
      ensures quizzes == old(quizzes) && searchTerm == old(searchTerm) && loading == old(loading)
    {
      sortBy := value;
      FilterAndSortQuizzes();
    }

    /** The stat tiles for the loaded list at time now. */
    function Stats(now: int): (s: Stats)
      reads this
      ensures s.thisWeek <= s.thisMonth <= s.total == |quizzes| && s.active == s.total
    {
      GetStats(quizzes, now)
    }
  }
}
