/**
 * The menu parser of src/parseMenu.ts: a single forward pass over the lines of
 * a weekly menu that accumulates one day record at a time and flushes it into
 * the result when the day's main-course line is read.
 *
 * The parser only ever sets a serving's meal type and a day's weekday and
 * servings; the other fields its record types declare are never filled, so
 * they are not part of this model.
 */
module ParseMenu {
  import opened Text

  datatype Option<+T> = None | Some(value: T)

  /** What kind of meal a serving is: the parser's MealType. */
  datatype MealType = Soup | MainCourse

  /** A serving as the parser builds it: only its meal type is ever set. */
  datatype Serving = Serving(mealType: MealType)

  /** The weekdays a menu covers, Monday to Friday: the parser's DayOfWeek. */
  datatype DayOfWeek = Monday | Tuesday | Wednesday | Thursday | Friday {
    /** The Polish name the menu text uses for the day. */
    function Name(): string {
      match this
      case Monday => "poniedziałek"
      case Tuesday => "wtorek"
      case Wednesday => "środa"
      case Thursday => "czwartek"
      case Friday => "piątek"
    }
  }

  /**
   * A day record. While it is being accumulated any part may still be
   * missing: no weekday yet is None, no serving yet is the empty sequence.
   */
  datatype MenuItem = MenuItem(dayOfWeek: Option<DayOfWeek>, servings: seq<Serving>)

  /** The fresh, empty accumulator the parser starts with and resets to. */
  const EmptyItem: MenuItem := MenuItem(None, [])

  /** The weekday test: exact, case-sensitive equality with one of the five names. */
  function IsDayOfWeek(item: string): (r: bool)
    ensures r <==> exists day: DayOfWeek :: day.Name() == item
  {
    match item
    case "poniedziałek" => assert Monday.Name() == item; true
    case "wtorek" => assert Tuesday.Name() == item; true
    case "środa" => assert Wednesday.Name() == item; true
    case "czwartek" => assert Thursday.Name() == item; true
    case "piątek" => assert Friday.Name() == item; true
    case _ =>
      assert forall day: DayOfWeek :: day.Name() != item;
      false
  }

  /** The day a line names, once the weekday test has accepted it. */
  function AsDayOfWeek(item: string): (day: DayOfWeek)
    requires IsDayOfWeek(item)
    ensures day.Name() == item
  {
    if item == "poniedziałek" then Monday
    else if item == "wtorek" then Tuesday
    else if item == "środa" then Wednesday
    else if item == "czwartek" then Thursday
    else Friday
  }

  /** The branch of the parser's loop a raw line takes, decided on the trimmed line. */
  datatype LineKind = DayLine(day: DayOfWeek) | SoupLine | MainCourseLine | OtherLine

  function Classify(rawItem: string): (k: LineKind)
    ensures k.DayLine? <==> IsDayOfWeek(Trim(rawItem))
    ensures k.DayLine? ==> k.day.Name() == Trim(rawItem)
    ensures k == SoupLine ==> StartsWith(Trim(rawItem), "zupa")
    ensures k == MainCourseLine ==> StartsWith(Trim(rawItem), "drugie danie") || StartsWith(Trim(rawItem), "II danie")
    ensures k == OtherLine ==> !StartsWith(Trim(rawItem), "zupa")
                               && !StartsWith(Trim(rawItem), "drugie danie") && !StartsWith(Trim(rawItem), "II danie")
  {
    var item := Trim(rawItem);
    if IsDayOfWeek(item) then DayLine(AsDayOfWeek(item))
    else if StartsWith(item, "zupa") then SoupLine
    else if StartsWith(item, "drugie danie") || StartsWith(item, "II danie") then MainCourseLine
    else OtherLine
  }

  /** The parser's state between two lines: the days emitted so far and the day being accumulated. */
  datatype ParseState = ParseState(parsedMenu: seq<MenuItem>, menuItem: MenuItem)

  const Start: ParseState := ParseState([], EmptyItem)

  /** The kind of every line, in input order. */
  function Kinds(lines: seq<string>): seq<LineKind> {
    seq(|lines|, i requires 0 <= i < |lines| => Classify(lines[i]))
  }

  /**
   * One iteration of the parser's loop, given the kind of its line. Only a
   * main-course line emits a day, exactly one, and days already emitted are
   * never changed.
   */
  function Step(st: ParseState, kind: LineKind): (r: ParseState)
    ensures st.parsedMenu <= r.parsedMenu
    ensures |r.parsedMenu| == |st.parsedMenu| + (if kind == MainCourseLine then 1 else 0)
    ensures kind == MainCourseLine ==> r.menuItem == EmptyItem
    ensures kind == OtherLine ==> r == st
  {
    match kind
    case DayLine(day) =>
      st.(menuItem := st.menuItem.(dayOfWeek := Some(day)))
    case SoupLine =>
      st.(menuItem := st.menuItem.(servings := st.menuItem.servings + [Serving(Soup)]))
    case MainCourseLine =>
      var completed := st.menuItem.(servings := st.menuItem.servings + [Serving(MainCourse)]);
      ParseState(st.parsedMenu + [completed], EmptyItem)
    case OtherLine =>
      st
  }

  /**
   * The loop run from state st over lines of the given kinds: a left fold of
   * Step. It emits at most one day per line.
   */
  function Run(st: ParseState, kinds: seq<LineKind>): (r: ParseState)
    ensures |r.parsedMenu| <= |st.parsedMenu| + |kinds|
    decreases |kinds|
  {
    if kinds == [] then st else Run(Step(st, kinds[0]), kinds[1..])
  }

  /** What the parser returns for the given lines: never more days than lines. */
  function Parsed(rawMenu: seq<string>): (r: seq<MenuItem>)
    ensures |r| <= |rawMenu|
  {
    Run(Start, Kinds(rawMenu)).parsedMenu
  }

  /**
   * The parser itself: a loop that trims each line, sets the weekday, appends
   * servings, and flushes and resets the accumulator when the completion flag
   * is raised by a main-course line.
   */
  method ParseMenu(rawMenu: seq<string>) returns (parsedMenu: seq<MenuItem>)
    ensures parsedMenu == Parsed(rawMenu)
  {
    parsedMenu := [];
    var isItemCompleted := false;
    var menuItem := EmptyItem;

    ghost var kinds := Kinds(rawMenu);
    for i := 0 to |rawMenu|
      invariant !isItemCompleted
      invariant Run(ParseState(parsedMenu, menuItem), kinds[i..]) == Run(Start, kinds)
    {
      ghost var before := ParseState(parsedMenu, menuItem);
      assert kinds[i..][0] == Classify(rawMenu[i]) && kinds[i..][1..] == kinds[i + 1..];
      ghost var after := Step(before, Classify(rawMenu[i]));

      var item := Trim(rawMenu[i]);
      if IsDayOfWeek(item) {
        menuItem := menuItem.(dayOfWeek := Some(AsDayOfWeek(item)));
        assert ParseState(parsedMenu, menuItem) == after;
        continue;
      }

      if StartsWith(item, "zupa") {
        menuItem := menuItem.(servings := menuItem.servings + [Serving(Soup)]);
        assert ParseState(parsedMenu, menuItem) == after;
        continue;
      }

      if StartsWith(item, "drugie danie") || StartsWith(item, "II danie") {
        menuItem := menuItem.(servings := menuItem.servings + [Serving(MainCourse)]);
        isItemCompleted := true;
      }

      if isItemCompleted {
        parsedMenu := parsedMenu + [menuItem];
        menuItem := EmptyItem;
        isItemCompleted := false;
      }
      assert ParseState(parsedMenu, menuItem) == after;
    }
    assert kinds[|rawMenu|..] == [];
  }
}
