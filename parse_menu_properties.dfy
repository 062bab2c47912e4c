/**
 * What the menu parser computes, stated without its loop: the input is cut
 * after every main-course line, each piece becomes one day, and whatever
 * follows the last main-course line is dropped. The lemmas below prove that
 * the parser's fold agrees with that description and derive the parser's
 * other guarantees from it.
 */
module ParseMenuProperties {
  import opened Text
  import opened ParseMenu

  predicate NoMainCourseLine(kinds: seq<LineKind>) {
    forall i :: 0 <= i < |kinds| ==> kinds[i] != MainCourseLine
  }

  predicate NoDayLine(kinds: seq<LineKind>) {
    forall i :: 0 <= i < |kinds| ==> !kinds[i].DayLine?
  }

  function CountMainCourseLines(kinds: seq<LineKind>): nat {
    if kinds == [] then 0
    else (if kinds[0] == MainCourseLine then 1 else 0) + CountMainCourseLines(kinds[1..])
  }

  lemma NoMainCourseLineCons(kinds: seq<LineKind>)
    requires kinds != []
    ensures NoMainCourseLine(kinds) <==> kinds[0] != MainCourseLine && NoMainCourseLine(kinds[1..])
  {
    if kinds[0] != MainCourseLine && NoMainCourseLine(kinds[1..]) {
      forall i | 0 <= i < |kinds| ensures kinds[i] != MainCourseLine {
        if i > 0 { assert kinds[i] == kinds[1..][i - 1]; }
      }
    }
  }

  /** The position of the first main-course line, if there is one. */
  function FirstMainCourseLine(kinds: seq<LineKind>): (r: Option<nat>)
    ensures r.None? <==> NoMainCourseLine(kinds)
    ensures r.Some? ==> r.value < |kinds| && kinds[r.value] == MainCourseLine
                        && NoMainCourseLine(kinds[..r.value])
  {
    if kinds == [] then None
    else if kinds[0] == MainCourseLine then Some(0)
    else
      NoMainCourseLineCons(kinds);
      match FirstMainCourseLine(kinds[1..])
      case None => None
      case Some(j) =>
        NoMainCourseLineCons(kinds[..j + 1]);
        assert kinds[..j + 1][1..] == kinds[1..][..j];
        Some(j + 1)
  }

  /** A weekday named later wins over one named earlier; no later one keeps the earlier. */
  function Latest(earlier: Option<DayOfWeek>, later: Option<DayOfWeek>): Option<DayOfWeek> {
    if later.Some? then later else earlier
  }

  /** The weekday a line names, if it is a weekday line. */
  function NamedDay(kind: LineKind): Option<DayOfWeek> {
    if kind.DayLine? then Some(kind.day) else None
  }

  /** The soup serving a line adds, if it is a soup line. */
  function SoupOf(kind: LineKind): seq<Serving> {
    if kind == SoupLine then [Serving(Soup)] else []
  }

  /** The weekday of the last weekday line among the given lines. */
  function LastDayOfWeek(kinds: seq<LineKind>): Option<DayOfWeek> {
    if kinds == [] then None else Latest(NamedDay(kinds[0]), LastDayOfWeek(kinds[1..]))
  }

  /** One soup serving for every soup line among the given lines. */
  function SoupServings(kinds: seq<LineKind>): seq<Serving> {
    if kinds == [] then [] else SoupOf(kinds[0]) + SoupServings(kinds[1..])
  }

  /** The day closed by a main-course line, given the lines read since the previous one. */
  function CompletedDay(block: seq<LineKind>): MenuItem {
    MenuItem(LastDayOfWeek(block), SoupServings(block) + [Serving(MainCourse)])
  }

  /**
   * The reference description of the parser's output: cut the input after
   * each main-course line; every piece that ends in one is a day.
   */
  function Days(kinds: seq<LineKind>): seq<MenuItem>
    decreases |kinds|
  {
    match FirstMainCourseLine(kinds)
    case None => []
    case Some(j) => [CompletedDay(kinds[..j])] + Days(kinds[j + 1..])
  }

  /** A day as the parser emits it: soups, then exactly one closing main course. */
  predicate WellFormedDay(day: MenuItem) {
    && |day.servings| > 0
    && day.servings[|day.servings| - 1] == Serving(MainCourse)
    && forall k :: 0 <= k < |day.servings| - 1 ==> day.servings[k] == Serving(Soup)
  }

  // ------------------------------------------------------------- the fold

  lemma SplitAt<T>(s: seq<T>, j: nat)
    requires j < |s|
    ensures s == (s[..j] + [s[j]]) + s[j + 1..]
  {
  }

  /** Running the loop over two stretches of input one after the other. */
  lemma {:induction false} RunAppend(st: ParseState, a: seq<LineKind>, b: seq<LineKind>)
    ensures Run(st, a + b) == Run(Run(st, a), b)
    decreases |a|
  {
    if a == [] {
      assert a + b == b;
    } else {
      assert (a + b)[0] == a[0] && (a + b)[1..] == a[1..] + b;
      RunAppend(Step(st, a[0]), a[1..], b);
    }
  }

  /** A line that is not a main-course line only updates the day being accumulated. */
  lemma StepOpenDay(st: ParseState, kind: LineKind)
    requires kind != MainCourseLine
    ensures Step(st, kind) == ParseState(st.parsedMenu,
      MenuItem(Latest(st.menuItem.dayOfWeek, NamedDay(kind)), st.menuItem.servings + SoupOf(kind)))
  {
    assert st.menuItem.servings + [] == st.menuItem.servings;
  }

  lemma RunCons(st: ParseState, kinds: seq<LineKind>)
    requires kinds != []
    ensures Run(st, kinds) == Run(Step(st, kinds[0]), kinds[1..])
  {
  }

  /** The day accumulated from st by lines without a main-course line. */
  function Accumulated(item: MenuItem, kinds: seq<LineKind>): MenuItem {
    MenuItem(Latest(item.dayOfWeek, LastDayOfWeek(kinds)), item.servings + SoupServings(kinds))
  }

  lemma AccumulatedCons(item: MenuItem, kinds: seq<LineKind>)
    requires kinds != []
    ensures Accumulated(item, kinds)
         == Accumulated(MenuItem(Latest(item.dayOfWeek, NamedDay(kinds[0])), item.servings + SoupOf(kinds[0])), kinds[1..])
  {
    assert item.servings + SoupServings(kinds)
        == (item.servings + SoupOf(kinds[0])) + SoupServings(kinds[1..]);
  }

  /** Lines without a main-course line only update the day being accumulated. */
  lemma {:induction false} RunOpenDay(st: ParseState, kinds: seq<LineKind>)
    requires NoMainCourseLine(kinds)
    ensures Run(st, kinds) == ParseState(st.parsedMenu, Accumulated(st.menuItem, kinds))
    decreases |kinds|
  {
    if kinds == [] {
      assert st.menuItem.servings + [] == st.menuItem.servings;
    } else {
      NoMainCourseLineCons(kinds);
      RunCons(st, kinds);
      StepOpenDay(st, kinds[0]);
      RunOpenDay(Step(st, kinds[0]), kinds[1..]);
      AccumulatedCons(st.menuItem, kinds);
    }
  }

  /** A main-course line closes the day accumulated from the lines before it. */
  lemma RunClosesDay(st: ParseState, block: seq<LineKind>)
    requires st.menuItem == EmptyItem
    requires NoMainCourseLine(block)
    ensures Run(st, block + [MainCourseLine])
         == ParseState(st.parsedMenu + [CompletedDay(block)], EmptyItem)
  {
    RunAppend(st, block, [MainCourseLine]);
    RunOpenDay(st, block);
    var open := Run(st, block);
    assert open.menuItem.servings == SoupServings(block);
    assert Run(open, [MainCourseLine]) == Step(open, MainCourseLine);
  }

  /** Reading through the first main-course line emits the first reference day. */
  lemma RunThroughFirstDay(st: ParseState, kinds: seq<LineKind>, j: nat)
    requires st.menuItem == EmptyItem
    requires FirstMainCourseLine(kinds) == Some(j)
    ensures Run(st, kinds)
         == Run(ParseState(st.parsedMenu + [CompletedDay(kinds[..j])], EmptyItem), kinds[j + 1..])
  {
    SplitAt(kinds, j);
    RunAppend(st, kinds[..j] + [MainCourseLine], kinds[j + 1..]);
    RunClosesDay(st, kinds[..j]);
  }

  /** From an empty accumulator, the loop emits exactly the reference days. */
  lemma {:induction false} RunEmitsDays(st: ParseState, kinds: seq<LineKind>)
    requires st.menuItem == EmptyItem
    ensures Run(st, kinds).parsedMenu == st.parsedMenu + Days(kinds)
    decreases |kinds|
  {
    var first := FirstMainCourseLine(kinds);
    if first.None? {
      RunOpenDay(st, kinds);
    } else {
      var j := first.value;
      var day := CompletedDay(kinds[..j]);
      var closed := ParseState(st.parsedMenu + [day], EmptyItem);
      RunThroughFirstDay(st, kinds, j);
      RunEmitsDays(closed, kinds[j + 1..]);
      assert Days(kinds) == [day] + Days(kinds[j + 1..]);
      assert (st.parsedMenu + [day]) + Days(kinds[j + 1..]) == st.parsedMenu + ([day] + Days(kinds[j + 1..]));
    }
  }

  /** The parser's output is the reference description of it. */
  lemma ParsedIsDays(rawMenu: seq<string>)
    ensures Parsed(rawMenu) == Days(Kinds(rawMenu))
  {
    RunEmitsDays(Start, Kinds(rawMenu));
  }

  // -------------------------------------------------------- counting days

  lemma {:induction false} RunCountsMainCourseLines(st: ParseState, kinds: seq<LineKind>)
    ensures |Run(st, kinds).parsedMenu| == |st.parsedMenu| + CountMainCourseLines(kinds)
    decreases |kinds|
  {
    if kinds != [] {
      RunCountsMainCourseLines(Step(st, kinds[0]), kinds[1..]);
    }
  }

  /** One day is emitted per main-course line, and no day otherwise. */
  lemma DayCount(rawMenu: seq<string>)
    ensures |Parsed(rawMenu)| == CountMainCourseLines(Kinds(rawMenu))
  {
    RunCountsMainCourseLines(Start, Kinds(rawMenu));
  }

  /** A line whose trimmed text starts with a main-course prefix is a main-course line. */
  lemma MainPrefixIsMainCourseLine(s: string)
    requires StartsWith(Trim(s), "drugie danie") || StartsWith(Trim(s), "II danie")
    ensures Classify(s) == MainCourseLine
  {
  }

  // -------------------------------------------------- shape of every day

  lemma {:induction false} SoupServingsAreSoups(kinds: seq<LineKind>)
    ensures forall k :: 0 <= k < |SoupServings(kinds)| ==> SoupServings(kinds)[k] == Serving(Soup)
    decreases |kinds|
  {
    if kinds != [] {
      SoupServingsAreSoups(kinds[1..]);
    }
  }

  lemma {:induction false} DaysWellFormed(kinds: seq<LineKind>)
    ensures forall k :: 0 <= k < |Days(kinds)| ==> WellFormedDay(Days(kinds)[k])
    decreases |kinds|
  {
    match FirstMainCourseLine(kinds)
    case None =>
    case Some(j) =>
      DaysWellFormed(kinds[j + 1..]);
      SoupServingsAreSoups(kinds[..j]);
      assert WellFormedDay(CompletedDay(kinds[..j]));
      var days := Days(kinds);
      forall k | 0 <= k < |days| ensures WellFormedDay(days[k]) {
        if k > 0 { assert days[k] == Days(kinds[j + 1..])[k - 1]; }
      }
  }

  /** Every emitted day ends with its one main course, and every serving before it is a soup. */
  lemma EmittedDaysWellFormed(rawMenu: seq<string>)
    ensures forall k :: 0 <= k < |Parsed(rawMenu)| ==> WellFormedDay(Parsed(rawMenu)[k])
  {
    ParsedIsDays(rawMenu);
    DaysWellFormed(Kinds(rawMenu));
  }

  // --------------------------------------------- the weekday of each day

  lemma {:induction false} LastDayOfWeekNone(kinds: seq<LineKind>)
    ensures LastDayOfWeek(kinds) == None <==> NoDayLine(kinds)
    decreases |kinds|
  {
    if kinds != [] {
      LastDayOfWeekNone(kinds[1..]);
      assert NoDayLine(kinds) <==> !kinds[0].DayLine? && NoDayLine(kinds[1..]) by {
        assert forall i :: 1 <= i < |kinds| ==> kinds[i] == kinds[1..][i - 1];
      }
    }
  }

  /** A day's weekday is the one named by the last weekday line of its block. */
  lemma {:induction false} LastDayOfWeekIsLast(kinds: seq<LineKind>, i: nat)
    requires i < |kinds| && kinds[i].DayLine?
    requires forall j :: i < j < |kinds| ==> !kinds[j].DayLine?
    ensures LastDayOfWeek(kinds) == Some(kinds[i].day)
    decreases |kinds|
  {
    if i == 0 {
      LastDayOfWeekNone(kinds[1..]);
    } else {
      assert kinds[1..][i - 1] == kinds[i];
      LastDayOfWeekIsLast(kinds[1..], i - 1);
    }
  }

  // ------------------------------------------------ what leaves no trace

  lemma KindsAppend(a: seq<string>, b: seq<string>)
    ensures Kinds(a + b) == Kinds(a) + Kinds(b)
  {
    forall i | 0 <= i < |a| + |b| ensures Kinds(a + b)[i] == (Kinds(a) + Kinds(b))[i] {
      if i < |a| { assert (a + b)[i] == a[i]; } else { assert (a + b)[i] == b[i - |a|]; }
    }
  }

  /** Lines after the last main-course line, an unfinished day among them, produce no output. */
  lemma ParsedIgnoresTrailingLines(rawMenu: seq<string>, tail: seq<string>)
    requires forall i :: 0 <= i < |tail| ==> Classify(tail[i]) != MainCourseLine
    ensures Parsed(rawMenu + tail) == Parsed(rawMenu)
  {
    KindsAppend(rawMenu, tail);
    RunAppend(Start, Kinds(rawMenu), Kinds(tail));
    RunOpenDay(Run(Start, Kinds(rawMenu)), Kinds(tail));
  }

  /** A line of no recognised kind, an empty one included, changes nothing wherever it stands. */
  lemma ParsedIgnoresOtherLine(before: seq<string>, line: string, after: seq<string>)
    requires Classify(line) == OtherLine
    ensures Parsed(before + [line] + after) == Parsed(before + after)
  {
    KindsAppend(before + [line], after);
    KindsAppend(before, [line]);
    KindsAppend(before, after);
    assert Kinds([line]) == [OtherLine];
    var st := Run(Start, Kinds(before));
    RunAppend(Start, Kinds(before) + [OtherLine], Kinds(after));
    RunAppend(Start, Kinds(before), [OtherLine]);
    RunAppend(Start, Kinds(before), Kinds(after));
    assert [OtherLine][1..] == [];
    assert Run(st, [OtherLine]) == st;
  }

  lemma {:induction false} RunOnlyAppends(st: ParseState, kinds: seq<LineKind>)
    ensures st.parsedMenu <= Run(st, kinds).parsedMenu
    decreases |kinds|
  {
    if kinds != [] {
      RunOnlyAppends(Step(st, kinds[0]), kinds[1..]);
    }
  }

  /** Reading more lines never changes or retracts a day already emitted. */
  lemma ParsedOnlyAppends(rawMenu: seq<string>, more: seq<string>)
    ensures Parsed(rawMenu) <= Parsed(rawMenu + more)
  {
    KindsAppend(rawMenu, more);
    RunAppend(Start, Kinds(rawMenu), Kinds(more));
    RunOnlyAppends(Run(Start, Kinds(rawMenu)), Kinds(more));
  }

  // -------------------------------------------------------- whitespace

  /** Whitespace around a line does not change how it is classified. */
  lemma ClassifyIgnoresPadding(before: string, item: string, after: string)
    requires AllWhitespace(before) && AllWhitespace(after)
    ensures Classify(before + item + after) == Classify(item)
  {
    TrimIgnoresPadding(before, item, after);
  }

  /** A blank line, empty or whitespace only, is of no kind. */
  lemma BlankLineIsOther(s: string)
    requires AllWhitespace(s)
    ensures Classify(s) == OtherLine
  {
    TrimOfWhitespace(s);
  }

  /** A line whose trimmed text starts with a digit, such as a date, is of no kind. */
  lemma DigitLineIsOther(s: string)
    requires Trim(s) != [] && '0' <= Trim(s)[0] <= '9'
    ensures Classify(s) == OtherLine
  {
    var item := Trim(s);
    forall day: DayOfWeek ensures day.Name() != item {
      assert day.Name()[0] != item[0];
    }
  }

  /** Two inputs whose lines agree once trimmed give the same days. */
  lemma ParsedSeesTrimmedLines(a: seq<string>, b: seq<string>)
    requires |a| == |b|
    requires forall i :: 0 <= i < |a| ==> Trim(a[i]) == Trim(b[i])
    ensures Parsed(a) == Parsed(b)
  {
    assert Kinds(a) == Kinds(b);
  }

  // ----------------------------------------------------------- weekdays

  /** Each weekday name, alone on its line, is read as that weekday. */
  lemma WeekdayNamesAreDayLines(day: DayOfWeek)
    ensures Classify(day.Name()) == DayLine(day)
  {
    var name := day.Name();
    TrimIsContent(name, 0, |name|);
    assert name[0..|name|] == name;
  }

  /** A weekday name read back from its text gives the same day. */
  lemma DayOfWeekNameRoundTrip(day: DayOfWeek)
    ensures IsDayOfWeek(day.Name()) && AsDayOfWeek(day.Name()) == day
  {
  }

  // ------------------------------------------------------------ an example

  /** The parser's run over lines of the example's kinds. */
  lemma RunExampleKinds()
    ensures Run(Start, [DayLine(Tuesday), OtherLine, SoupLine, MainCourseLine]
                     + [DayLine(Wednesday), SoupLine, MainCourseLine]
                     + [OtherLine, SoupLine]).parsedMenu
         == [MenuItem(Some(Tuesday), [Serving(Soup), Serving(MainCourse)]),
             MenuItem(Some(Wednesday), [Serving(Soup), Serving(MainCourse)])]
  {
    var first := [DayLine(Tuesday), OtherLine, SoupLine];
    var second := [DayLine(Wednesday), SoupLine];
    var dangling := [OtherLine, SoupLine];
    var week := (first + [MainCourseLine]) + (second + [MainCourseLine]);
    assert [DayLine(Tuesday), OtherLine, SoupLine, MainCourseLine]
         + [DayLine(Wednesday), SoupLine, MainCourseLine]
         + [OtherLine, SoupLine] == week + dangling;
    RunAppend(Start, week, dangling);
    RunAppend(Start, first + [MainCourseLine], second + [MainCourseLine]);
    assert NoMainCourseLine(first);
    RunClosesDay(Start, first);
    var day1 := CompletedDay(first);
    assert day1 == MenuItem(Some(Tuesday), [Serving(Soup), Serving(MainCourse)]);
    assert Run(Start, first + [MainCourseLine]) == ParseState([day1], EmptyItem);
    assert NoMainCourseLine(second);
    RunClosesDay(ParseState([day1], EmptyItem), second);
    var day2 := CompletedDay(second);
    assert day2 == MenuItem(Some(Wednesday), [Serving(Soup), Serving(MainCourse)]);
    assert Run(Start, week) == ParseState([day1, day2], EmptyItem);
    assert NoMainCourseLine(dangling);
    RunOpenDay(ParseState([day1, day2], EmptyItem), dangling);
  }
}
