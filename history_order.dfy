/**
 * Ordering of quiz history entries: the comparator of the history tab's
 * `filtered.sort` (frontend/src/tabs/EnhancedHistoryTab.jsx) and the newest-first
 * order of GET /quizzes. SortQuizzes is the insertion sort that specifies the
 * order, and SortInPlace is the in-place algorithm proved to produce it.
 */
module HistoryOrder {
  import opened Schemas
  import opened Seqs

  /** The values of the sort selector; any other value compares all pairs equal. */
  datatype SortKey = Newest | Oldest | ByTitle | Unrecognized

  /** Lexicographic comparison by character code, standing in for localeCompare. */
  function LexCompare(a: string, b: string): (r: int)
    ensures -1 <= r <= 1
    ensures r == 0 <==> a == b
  {
    if a == [] && b == [] then 0
    else if a == [] then -1
    else if b == [] then 1
    else if a[0] < b[0] then -1
    else if a[0] > b[0] then 1
    else LexCompare(a[1..], b[1..])
  }

  lemma {:induction false} LexCompareAntisymmetric(a: string, b: string)
    ensures LexCompare(a, b) == -LexCompare(b, a)
  {
    if a != [] && b != [] && a[0] == b[0] {
      LexCompareAntisymmetric(a[1..], b[1..]);
    }
  }

  /** The comparator passed to filtered.sort: negative puts a before b. */
  function Compare(key: SortKey, a: QuizHistory, b: QuizHistory): (r: int)
    ensures key == Newest ==> (r < 0 <==> a.dateGenerated > b.dateGenerated)
    ensures key == Oldest ==> (r < 0 <==> a.dateGenerated < b.dateGenerated)
    ensures key == ByTitle ==> (r == 0 <==> a.title == b.title)
    ensures key == Unrecognized ==> r == 0
  {
    match key
    case Newest => b.dateGenerated - a.dateGenerated
    case Oldest => a.dateGenerated - b.dateGenerated
    case ByTitle => LexCompare(a.title, b.title)
    case Unrecognized => 0
  }

  lemma CompareAntisymmetric(key: SortKey, a: QuizHistory, b: QuizHistory)
    ensures Compare(key, a, b) > 0 ==> Compare(key, b, a) < 0
  {
    if key == ByTitle {
      LexCompareAntisymmetric(a.title, b.title);
    }
  }

  /** Neighbours are in comparator order. */
  ghost predicate Ordered(key: SortKey, s: seq<QuizHistory>)
  {
    forall i :: 0 <= i < |s| - 1 ==> Compare(key, s[i], s[i + 1]) <= 0
  }

  /** Inserts x before the first element it does not compare greater than. */
  function Insert(key: SortKey, x: QuizHistory, s: seq<QuizHistory>): (r: seq<QuizHistory>)
    ensures |r| == |s| + 1
    ensures multiset(r) == multiset(s) + multiset{x}
    ensures r[0] == x || (s != [] && r[0] == s[0])
  {
    if s == [] then [x]
    else if Compare(key, x, s[0]) <= 0 then [x] + s
    else
      var r := [s[0]] + Insert(key, x, s[1..]);
      assert s == [s[0]] + s[1..];
      r
  }

  /**
   * Insertion sort: each element is inserted into the sorted rest of the list,
   * ahead of the first element it does not compare greater than.
   */
  function SortQuizzes(s: seq<QuizHistory>, key: SortKey): (r: seq<QuizHistory>)
    ensures |r| == |s| && multiset(r) == multiset(s)
  {
    if s == [] then []
    else
      assert s == [s[0]] + s[1..];
      Insert(key, s[0], SortQuizzes(s[1..], key))
  }

  lemma {:induction false} InsertOrdered(key: SortKey, x: QuizHistory, s: seq<QuizHistory>)
    requires Ordered(key, s)
    ensures Ordered(key, Insert(key, x, s))
  {
    if s != [] && Compare(key, x, s[0]) > 0 {
      InsertOrdered(key, x, s[1..]);
      CompareAntisymmetric(key, x, s[0]);
      var t := Insert(key, x, s[1..]);
      assert t[0] == x || t[0] == s[1];
    }
  }

  /** Sorting only reorders, and leaves the list in comparator order. */
  lemma {:induction false} SortIsOrderedPermutation(s: seq<QuizHistory>, key: SortKey)
    ensures |SortQuizzes(s, key)| == |s|
    ensures multiset(SortQuizzes(s, key)) == multiset(s)
    ensures Ordered(key, SortQuizzes(s, key))
  {
    if s != [] {
      SortIsOrderedPermutation(s[1..], key);
      InsertOrdered(key, s[0], SortQuizzes(s[1..], key));
      assert s == [s[0]] + s[1..];
    }
  }

  /** With a key the comparator does not know, every pair is equal and the order is kept. */
  lemma {:induction false} UnrecognizedKeepsOrder(s: seq<QuizHistory>)
    ensures SortQuizzes(s, Unrecognized) == s
  {
    if s != [] {
      UnrecognizedKeepsOrder(s[1..]);
      assert s == [s[0]] + s[1..];
    }
  }

  lemma {:induction false} OrderedByDate(key: SortKey, s: seq<QuizHistory>)
    requires key == Newest || key == Oldest
    requires Ordered(key, s)
    ensures key == Newest ==> forall i, j :: 0 <= i < j < |s| ==> s[i].dateGenerated >= s[j].dateGenerated
    ensures key == Oldest ==> forall i, j :: 0 <= i < j < |s| ==> s[i].dateGenerated <= s[j].dateGenerated
  {
    if |s| > 1 {
      OrderedByDate(key, s[1..]);
      forall j | 1 <= j < |s|
        ensures key == Newest ==> s[0].dateGenerated >= s[j].dateGenerated
        ensures key == Oldest ==> s[0].dateGenerated <= s[j].dateGenerated
      {
        assert Compare(key, s[0], s[1]) <= 0;
        assert s[1] == s[1..][0] && s[j] == s[1..][j - 1];
      }
      forall i, j | 1 <= i < j < |s|
        ensures key == Newest ==> s[i].dateGenerated >= s[j].dateGenerated
        ensures key == Oldest ==> s[i].dateGenerated <= s[j].dateGenerated
      {
        assert s[i] == s[1..][i - 1] && s[j] == s[1..][j - 1];
      }
    }
  }

  /** 'newest' gives dates non-increasing; 'oldest' gives them non-decreasing. */
  lemma SortByDate(s: seq<QuizHistory>)
    ensures var r := SortQuizzes(s, Newest);
      forall i, j :: 0 <= i < j < |r| ==> r[i].dateGenerated >= r[j].dateGenerated
    ensures var r := SortQuizzes(s, Oldest);
      forall i, j :: 0 <= i < j < |r| ==> r[i].dateGenerated <= r[j].dateGenerated
  {
    SortIsOrderedPermutation(s, Newest);
    OrderedByDate(Newest, SortQuizzes(s, Newest));
    SortIsOrderedPermutation(s, Oldest);
    OrderedByDate(Oldest, SortQuizzes(s, Oldest));
  }

  /** Insert passes over the first k elements when x compares greater than each of them. */
  lemma {:induction false} InsertAfter(key: SortKey, x: QuizHistory, s: seq<QuizHistory>, k: nat)
    requires k <= |s|
    requires forall m :: 0 <= m < k ==> Compare(key, x, s[m]) > 0
    requires k == |s| || Compare(key, x, s[k]) <= 0
    ensures Insert(key, x, s) == s[..k] + [x] + s[k..]
  {
    if k == 0 {
      assert s[..0] + [x] + s[0..] == [x] + s;
    } else {
      var t := s[1..];
      assert Compare(key, x, s[0]) > 0;
      forall m | 0 <= m < k - 1
        ensures Compare(key, x, t[m]) > 0
      {
        assert t[m] == s[m + 1];
      }
      assert k - 1 < |t| ==> t[k - 1] == s[k];
      InsertAfter(key, x, t, k - 1);
      ConsSplit(s, x, k);
    }
  }

  /** Moves a[i] rightwards past every element of the suffix it compares greater than. */
  method InsertStep(a: array<QuizHistory>, i: nat, key: SortKey)
    requires i < a.Length
    modifies a
    ensures a[..i] == old(a[..i])
    ensures a[i..] == Insert(key, old(a[i]), old(a[i + 1..]))
  {
    ghost var prefix, sorted := a[..i], a[i + 1..];
    var x := a[i];
    var j := ShiftPast(a, i, key);
    a[j] := x;
    assert a[..i] == prefix;
    InsertedAt(key, a[..], i, j, x, sorted);
  }

  /**
   * The array after an insertion step, seen as a sequence t: from i on it is
   * the sorted suffix with x inserted where Insert puts it.
   */
  lemma InsertedAt(key: SortKey, t: seq<QuizHistory>, i: nat, j: nat, x: QuizHistory, sorted: seq<QuizHistory>)
    requires i <= j < |t| && |sorted| == |t| - i - 1 && t[j] == x
    requires forall m :: i <= m < j ==> t[m] == sorted[m - i]
    requires forall m :: j < m < |t| ==> t[m] == sorted[m - i - 1]
    requires forall m :: 0 <= m < j - i ==> Compare(key, x, sorted[m]) > 0
    requires j - i == |sorted| || Compare(key, x, sorted[j - i]) <= 0
    ensures t[i..] == Insert(key, x, sorted)
  {
    Assemble(t, i, j, x, sorted);
    InsertAfter(key, x, sorted, j - i);
  }

  /**
   * The inner loop of an insertion step: the elements after i that a[i] compares
   * greater than move one place left, and the slot j they free is returned.
   */
  method ShiftPast(a: array<QuizHistory>, i: nat, key: SortKey) returns (j: nat)
    requires i < a.Length
    modifies a
    ensures i <= j < a.Length
    ensures forall m :: 0 <= m < i ==> a[m] == old(a[m])
    ensures forall m :: i <= m < j ==> a[m] == old(a[m + 1])
    ensures forall m :: j < m < a.Length ==> a[m] == old(a[m])
    ensures forall m :: i < m <= j ==> Compare(key, old(a[i]), old(a[m])) > 0
    ensures j + 1 == a.Length || Compare(key, old(a[i]), old(a[j + 1])) <= 0
  {
    var x := a[i];
    j := i;
    while j + 1 < a.Length && Compare(key, x, a[j + 1]) > 0
      invariant i <= j < a.Length
      invariant forall m :: 0 <= m < i ==> a[m] == old(a[m])
      invariant forall m :: i <= m < j ==> a[m] == old(a[m + 1])
      invariant forall m :: j < m < a.Length ==> a[m] == old(a[m])
      invariant forall m :: i < m <= j ==> Compare(key, x, old(a[m])) > 0
    {
      a[j] := a[j + 1];
      j := j + 1;
    }
  }

  /**
   * Array.prototype.sort with the history comparator, in place: each element,
   * from the last to the first, is inserted into the sorted suffix after it.
   */
  method SortInPlace(a: array<QuizHistory>, key: SortKey)
    modifies a
    ensures a[..] == SortQuizzes(old(a[..]), key)
  {
    ghost var s := a[..];
    var i := a.Length;
    while i > 0
      invariant 0 <= i <= a.Length
      invariant a[..i] == s[..i]
      invariant a[i..] == SortQuizzes(s[i..], key)
    {
      i := i - 1;
      assert a[i] == s[i] && a[..i] == s[..i] by {
        assert a[..i + 1][i] == s[..i + 1][i] && a[..i + 1][..i] == s[..i + 1][..i];
      }
      assert SortQuizzes(s[i..], key) == Insert(key, s[i], SortQuizzes(s[i + 1..], key)) by {
        assert s[i..][0] == s[i] && s[i..][1..] == s[i + 1..];
      }
      InsertStep(a, i, key);
    }
    assert a[..] == a[0..];
  }
}
