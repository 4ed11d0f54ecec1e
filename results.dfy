// MatchResult.kt: a captured group (its code points and the Kotlin IntRange
// they were taken from) and the result of one successful match.

module Results {
  import opened Utils
  import opened Numeric

  const INT_MIN: int := -0x8000_0000

  /** Kotlin's `IntRange` `first..last`; empty when `first > last`. */
  datatype IntRange = IntRange(first: int, last: int)
  {
    predicate IsEmpty() { first > last }
  }

  /** `IntRange.equals`: two empty ranges are equal whatever their endpoints. */
  predicate RangeEquals(a: IntRange, b: IntRange)
  {
    (a.IsEmpty() && b.IsEmpty()) || (a.first == b.first && a.last == b.last)
  }

  /** `IntRange.hashCode`: -1 for every empty range, `31 * first + last` in 32-bit arithmetic otherwise. */
  function RangeHash(r: IntRange): (h: int)
    ensures IsInt(h)
  {
    if r.IsEmpty() then -1 else ToInt(31 * r.first + r.last)
  }

  /** `a until b`: the empty range `1..0` when `b` is `Int.MIN_VALUE`, else `a..b - 1`. */
  function Until(a: int, b: int): (r: IntRange)
    ensures b > INT_MIN ==> r.first == a && r.last + 1 == b
    ensures b <= INT_MIN ==> r.IsEmpty()
  {
    if b <= INT_MIN then IntRange(1, 0) else IntRange(a, b - 1)
  }

  datatype MatchGroup = MatchGroup(codePoints: seq<int>, range: IntRange)

  /** `MatchGroup.equals`: the same code points (`contentEquals`) and equal ranges. */
  predicate GroupEquals(a: MatchGroup, b: MatchGroup)
  {
    a.codePoints == b.codePoints && RangeEquals(a.range, b.range)
  }

  /** `IntArray.contentHashCode`: 1, then `31 * h + e` for each element, in 32-bit arithmetic. */
  function ContentHash(cps: seq<int>): (h: int)
    ensures IsInt(h)
  {
    if cps == [] then 1 else ToInt(31 * ContentHash(cps[..|cps| - 1]) + cps[|cps| - 1])
  }

  /** `MatchGroup.hashCode`. */
  function GroupHash(g: MatchGroup): (h: int)
    ensures IsInt(h)
  {
    ToInt(31 * ContentHash(g.codePoints) + RangeHash(g.range))
  }

  /** `MatchGroup.equals` is an equivalence relation. */
  lemma GroupEqualsIsEquivalence(a: MatchGroup, b: MatchGroup, c: MatchGroup)
    ensures GroupEquals(a, a)
    ensures GroupEquals(a, b) ==> GroupEquals(b, a)
    ensures GroupEquals(a, b) && GroupEquals(b, c) ==> GroupEquals(a, c)
  {
  }

  /** `equals` and `hashCode` agree: equal groups hash alike, empty ranges included. */
  lemma EqualGroupsHashAlike(a: MatchGroup, b: MatchGroup)
    requires GroupEquals(a, b)
    ensures GroupHash(a) == GroupHash(b)
  {
  }

  /** `copy()`: a fresh array with the same code points, and the same range. */
  function Copy(g: MatchGroup): (c: MatchGroup)
    ensures GroupEquals(c, g) && GroupHash(c) == GroupHash(g)
  {
    MatchGroup(g.codePoints[..], g.range)
  }

  /**
   * A successful match. `groups` is the `SortedMap` as its entries in
   * ascending key order; `groupNames` lists the named groups in the order
   * they were declared.
   */
  datatype MatchResult = MatchResult(groups: seq<(int, MatchGroup)>, groupNames: seq<(int, string)>)

  /** The keys of a `SortedMap`'s entries strictly increase. */
  predicate SortedKeys(entries: seq<(int, MatchGroup)>)
  {
    forall i, j | 0 <= i < j < |entries| :: entries[i].0 < entries[j].0
  }

  /** `groups[key]`: the group stored under `key`, if any. */
  function Get(entries: seq<(int, MatchGroup)>, key: int): (r: Option<MatchGroup>)
    requires SortedKeys(entries)
    ensures r.None? <==> forall i | 0 <= i < |entries| :: entries[i].0 != key
    ensures r.Some? ==> exists i | 0 <= i < |entries| :: entries[i] == (key, r.value)
  {
    if entries == [] then None
    else if entries[0].0 == key then Some(entries[0].1)
    else Get(entries[1..], key)
  }

  /**
   * The lazy `range` property as written: the groups are visited in key order,
   * `start` keeps the least `first`, but `end` is recomputed from the current
   * group's `last` and the running `start`, so only the group with the
   * greatest key decides it. With no groups, `start!!` throws.
   */
  method Range(m: MatchResult) returns (r: Result<IntRange, Crash>)
    ensures r.Failure? <==> m.groups == []
    ensures r.Failure? ==> r.error == NullPointer
    ensures r.Success? ==> (exists i | 0 <= i < |m.groups| :: r.value.first == m.groups[i].1.range.first)
                           && forall i | 0 <= i < |m.groups| :: r.value.first <= m.groups[i].1.range.first
    ensures r.Success? ==> r.value.last == Max(m.groups[|m.groups| - 1].1.range.last, r.value.first)
  {
    var start: Option<int> := None;
    var end: Option<int> := None;
    var i := 0;
    while i < |m.groups|
      invariant 0 <= i <= |m.groups|
      invariant start.Some? <==> i > 0
      invariant end.Some? <==> i > 0
      invariant i > 0 ==> (exists j | 0 <= j < i :: start.value == m.groups[j].1.range.first)
                          && (forall j | 0 <= j < i :: start.value <= m.groups[j].1.range.first)
                          && end.value == Max(m.groups[i - 1].1.range.last, start.value)
    {
      var group := m.groups[i].1;
      // `start ?: Int.MAX_VALUE`: every Kotlin Int is at most Int.MAX_VALUE.
      start := Some(if start.None? then group.range.first else Min(group.range.first, start.value));
      end := Some(Max(group.range.last, start.value));
      i := i + 1;
    }
    if start.None? || end.None? {
      return Failure(NullPointer);
    }
    r := Success(IntRange(start.value, end.value));
  }

  /**
   * `range` as the test helpers expect it: from the least `first` to the
   * greatest `last` over all groups, `end` accumulated like `start`.
   */
  method Span(m: MatchResult) returns (r: Result<IntRange, Crash>)
    ensures r.Failure? <==> m.groups == []
    ensures r.Failure? ==> r.error == NullPointer
    ensures r.Success? ==> (exists i | 0 <= i < |m.groups| :: r.value.first == m.groups[i].1.range.first)
                           && forall i | 0 <= i < |m.groups| :: r.value.first <= m.groups[i].1.range.first
    ensures r.Success? ==> (exists i | 0 <= i < |m.groups| :: r.value.last == m.groups[i].1.range.last)
                           && forall i | 0 <= i < |m.groups| :: m.groups[i].1.range.last <= r.value.last
  {
    var start: Option<int> := None;
    var end: Option<int> := None;
    var i := 0;
    while i < |m.groups|
      invariant 0 <= i <= |m.groups|
      invariant start.Some? <==> i > 0
      invariant end.Some? <==> i > 0
      invariant i > 0 ==> (exists j | 0 <= j < i :: start.value == m.groups[j].1.range.first)
                          && (forall j | 0 <= j < i :: start.value <= m.groups[j].1.range.first)
      invariant i > 0 ==> (exists j | 0 <= j < i :: end.value == m.groups[j].1.range.last)
                          && (forall j | 0 <= j < i :: m.groups[j].1.range.last <= end.value)
    {
      var group := m.groups[i].1;
      start := Some(if start.None? then group.range.first else Min(group.range.first, start.value));
      end := Some(if end.None? then group.range.last else Max(group.range.last, end.value));
      i := i + 1;
    }
    if start.None? || end.None? {
      return Failure(NullPointer);
    }
    r := Success(IntRange(start.value, end.value));
  }

  /** `(a)b` matched against "ab": group 0 spans 0..1 and group 1 spans 0..0. */
  function NestedCapture(): (m: MatchResult)
    ensures SortedKeys(m.groups)
  {
    MatchResult([(0, MatchGroup(['a' as int, 'b' as int], IntRange(0, 1))),
                 (1, MatchGroup(['a' as int], IntRange(0, 0)))], [])
  }

  /** As written, `range` reports 0..0 for that match instead of the matched span 0..1. */
  method RangeMissesMatchEnd() returns (written: Result<IntRange, Crash>, intended: Result<IntRange, Crash>)
    ensures written == Success(IntRange(0, 0))
    ensures intended == Success(IntRange(0, 1))
  {
    var m := NestedCapture();
    written := Range(m);
    intended := Span(m);
    assert m.groups[0].1.range == IntRange(0, 1) && m.groups[1].1.range == IntRange(0, 0);
  }

  function Min(a: int, b: int): int { if a <= b then a else b }
  function Max(a: int, b: int): int { if a >= b then a else b }

  /**
   * `namedGroups`: each declared name paired with its group, in declaration
   * order; `groups[index]!!` throws when a named group was never captured.
   */
  function NamedGroups(m: MatchResult): (r: Result<seq<(string, MatchGroup)>, Crash>)
    requires SortedKeys(m.groups)
    ensures r.Success? <==> forall i | 0 <= i < |m.groupNames| :: Get(m.groups, m.groupNames[i].0).Some?
    ensures r.Failure? ==> r.error == NullPointer
    ensures r.Success? ==> |r.value| == |m.groupNames|
                           && forall i | 0 <= i < |r.value| ::
                                r.value[i] == (m.groupNames[i].1, Get(m.groups, m.groupNames[i].0).value)
  {
    NamedFrom(m.groups, m.groupNames)
  }

  function NamedFrom(groups: seq<(int, MatchGroup)>, names: seq<(int, string)>): (r: Result<seq<(string, MatchGroup)>, Crash>)
    requires SortedKeys(groups)
    ensures r.Success? <==> forall i | 0 <= i < |names| :: Get(groups, names[i].0).Some?
    ensures r.Failure? ==> r.error == NullPointer
    ensures r.Success? ==> |r.value| == |names|
                           && forall i | 0 <= i < |r.value| :: r.value[i] == (names[i].1, Get(groups, names[i].0).value)
  {
    if names == [] then Success([])
    else
      match Get(groups, names[0].0)
      case None => Failure(NullPointer)
      case Some(g) =>
        match NamedFrom(groups, names[1..])
        case Failure(e) => Failure(e)
        case Success(rest) => Success([(names[0].1, g)] + rest)
  }
}
