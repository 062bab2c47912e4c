# Menu parser model

This project models the core of a lunch-menu parser: `parseMenu` and `isDayOfWeek` in
`src/parseMenu.ts`. The parser takes the lines of a weekly menu, such as `readFile` in `src/utils.ts`
produces from a local text file split on `\r\n`, and turns them into day records. The text
is in Polish, and each day lists soups followed by a main course. `parseMenu` makes one pass over
the lines:

- It trims each line.
- A weekday name sets the weekday of the day being accumulated.
- A line starting with `zupa` adds a soup serving.
- A line starting with `drugie danie` or `II danie` adds a main-course serving. It also closes
  the day: the day is pushed to the result and the accumulator is reset.
- Any other line changes nothing.

Modules:

- `Text` (`text.dfy`): `String.prototype.trim` and `String.prototype.startsWith` on
  `seq<char>`. Trim strips the ECMAScript WhiteSpace and LineTerminator code points. It finds
  the first and the last character that is not whitespace and keeps the slice between them.
  The contracts say that this slice is what is left after a leading and a trailing run of
  whitespace, and that it neither starts nor ends with whitespace. Lemmas show that:
  - trim is fully determined by where the content lies;
  - padding a line with whitespace does not change its trim;
  - trim is idempotent.
- `ParseMenu` (`parse_menu.dfy`):
  - the parser's types (`MealType`, `DayOfWeek`, `Serving`, `MenuItem`);
  - the weekday test `IsDayOfWeek`;
  - the parser itself as the imperative method `ParseMenu`. It keeps the source's loop, its
    `continue`s, its completion flag and its flush.
  - The method is proved equal to `Parsed`, a left fold of the pure one-line step `Step` over
    the kind of each line (`Classify`).
- `ParseMenuProperties` (`parse_menu_properties.dfy`):
  - `Days` is an independent reference description of the output. It cuts the input after every
    main-course line, and each piece becomes one day: the weekday is the last weekday line in the
    piece, and the servings are one soup per soup line plus the closing main course.
  - `ParsedIsDays` proves that the parser's fold equals `Days`.
  - Other lemmas state the rest: one day per main-course line, the shape of every day,
    which weekday a day gets, lines that leave no trace, the output only growing as lines are
    added, and trim-insensitivity.

The model also assumes two things about the source:

- A day whose only serving is the main course has `servings == [main course]`. In the source,
  `servings` is created on the first push, so the distinction between a missing and an empty
  `servings` cannot be observed in a pushed day: every pushed day has at least one serving.
- Before its first weekday line, a day has no weekday. This is `None` here and a missing
  property in the source.

## Model

| member | source | states |
|---|---|---|
| ParseMenu.ParseMenu | src/parseMenu.ts:23-66 | The loop's result equals the fold `Parsed` of the one-line step over the input lines, for every input (invariant: the fold of the remaining lines from the current state gives the final result, and the completion flag is down between iterations) |
| ParseMenu.IsDayOfWeek | src/parseMenu.ts:68-79 | True exactly when the string is the Polish name of one of the five weekdays (exact, case-sensitive match) |
| ParseMenu.AsDayOfWeek | src/parseMenu.ts:31-32 | For a string accepted by the weekday test, the weekday whose name is that string: the day stored is the one the line names |
| ParseMenu.Classify | src/parseMenu.ts:30-47 | The branch a line takes is decided on the trimmed line: it is a weekday line exactly when the trimmed line is a weekday name, and that weekday's name is the trimmed line; a soup line's trimmed text starts with `zupa`; a main-course line's starts with `drugie danie` or `II danie`; a line of no kind is not a weekday name and starts with none of the three prefixes |
| ParseMenu.Run | src/parseMenu.ts:29-63 | The loop over the lines as a left fold of the one-line step; it emits at most one day per line |
| ParseMenu.Parsed | src/parseMenu.ts:23-66 | What the parser returns for a list of lines (the fold from the empty start state); never more days than lines |
| ParseMenu.Step | src/parseMenu.ts:31-62 | One iteration never alters the days already emitted; it emits exactly one day when the line is a main-course line and none otherwise; after a main-course line the accumulator is empty; a line of no kind leaves the state unchanged |
| ParseMenuProperties.FirstMainCourseLine | src/parseMenu.ts:47-58 | Finds the first main-course line: none exactly when there is none, and otherwise a main-course line with none before it |
| ParseMenuProperties.ParsedIsDays | src/parseMenu.ts:23-66 | The parser's output is the reference `Days`: cut after each main-course line, each piece one day with its last weekday and its soups followed by the main course, the unfinished tail dropped |
| ParseMenuProperties.RunEmitsDays | src/parseMenu.ts:29-63 | From an empty accumulator, the loop appends exactly the reference days to what was already emitted |
| ParseMenuProperties.RunOpenDay | src/parseMenu.ts:31-45 | Lines without a main-course line emit nothing; they only set the accumulator's weekday to the last one named and append one soup per soup line |
| ParseMenuProperties.RunClosesDay | src/parseMenu.ts:47-62 | From an empty accumulator, a block without a main-course line followed by one main-course line emits the block's completed day and resets the accumulator |
| ParseMenuProperties.RunAppend | src/parseMenu.ts:29-63 | Running the loop over two stretches of input one after the other is running it over their concatenation |
| ParseMenuProperties.DayCount | src/parseMenu.ts:47-62 | The number of days returned equals the number of main-course lines in the input |
| ParseMenuProperties.MainPrefixIsMainCourseLine | src/parseMenu.ts:30-47 | A line whose trimmed text starts with `drugie danie` or `II danie` is a main-course line, so it is one of the lines `DayCount` counts |
| ParseMenuProperties.RunCountsMainCourseLines | src/parseMenu.ts:47-62 | Each main-course line adds exactly one emitted day and no other line adds any |
| ParseMenuProperties.EmittedDaysWellFormed | src/parseMenu.ts:36-56 | Every returned day has at least one serving; its last serving is the main course and every earlier serving is a soup |
| ParseMenuProperties.DaysWellFormed | src/parseMenu.ts:36-56 | Every reference day has soups followed by exactly one closing main course |
| ParseMenuProperties.SoupServingsAreSoups | src/parseMenu.ts:36-44 | The servings added by the lines before the main course are all soups |
| ParseMenuProperties.LastDayOfWeekNone | src/parseMenu.ts:31-34 | A day has no weekday exactly when no weekday line stands in its block |
| ParseMenuProperties.LastDayOfWeekIsLast | src/parseMenu.ts:31-34 | A day's weekday is the one named by the last weekday line in its block: a later weekday line overwrites an earlier one |
| ParseMenuProperties.ParsedIgnoresTrailingLines | src/parseMenu.ts:58-65 | Lines after the last main-course line, including an unfinished day, change nothing in the result |
| ParseMenuProperties.ParsedIgnoresOtherLine | src/parseMenu.ts:29-62 | A line of no recognised kind (see BlankLineIsOther and DigitLineIsOther) can be removed from anywhere in the input without changing the result |
| ParseMenuProperties.BlankLineIsOther | src/parseMenu.ts:30-56 | An empty or whitespace-only line takes none of the three branches |
| ParseMenuProperties.DigitLineIsOther | src/parseMenu.ts:30-56 | A line whose trimmed text starts with a digit, such as a date line, takes none of the three branches |
| ParseMenuProperties.ParsedOnlyAppends | src/parseMenu.ts:58-62 | Reading more lines never changes or retracts a day already returned: the result for a prefix is a prefix of the result |
| ParseMenuProperties.RunOnlyAppends | src/parseMenu.ts:58-62 | The loop only ever appends to the days emitted so far |
| ParseMenuProperties.ClassifyIgnoresPadding | src/parseMenu.ts:30 | Whitespace added around a line does not change how it is classified |
| ParseMenuProperties.ParsedSeesTrimmedLines | src/parseMenu.ts:30 | Two inputs whose lines agree once trimmed give the same result |
| ParseMenuProperties.WeekdayNamesAreDayLines | src/parseMenu.ts:30-32 | A weekday's name alone on a line is read as that weekday |
| ParseMenuProperties.DayOfWeekNameRoundTrip | src/parseMenu.ts:68-79 | The weekday test accepts every weekday name and reads it back as the same day |
| ParseMenuProperties.RunExampleKinds | src/parseMenu.ts:29-65 | A worked week: a weekday, a date line, a soup and a main course, then a second such day, then a blank line and a soup with no main course. It gives the two complete days, each with a soup and a main course, and drops the dangling soup |
| ParseMenuProperties.KindsAppend | src/parseMenu.ts:29-30 | Lines are classified one at a time: classifying a concatenation is concatenating the classifications |
| Text.IsWhitespace | src/parseMenu.ts:30 | The code points trim strips: the ECMAScript WhiteSpace and LineTerminator sets; every one lies in the Basic Multilingual Plane |
| Text.SkipLeading | src/parseMenu.ts:30 | The index of the first non-whitespace character at or after a position: everything skipped is whitespace and the character found is not |
| Text.SkipTrailing | src/parseMenu.ts:30 | The index just past the last non-whitespace character before a position: everything skipped is whitespace and the character before it is not |
| Text.Trim | src/parseMenu.ts:30 | The trimmed line is the slice of the line left between a leading and a trailing run of whitespace, and it neither starts nor ends with whitespace |
| Text.StartsWith | src/parseMenu.ts:36-47 | `startsWith` holds exactly when the prefix is an initial segment of the line |
| Text.TrimIsContent | src/parseMenu.ts:30 | If everything outside a slice is whitespace and the slice neither starts nor ends with whitespace, trim returns exactly that slice |
| Text.TrimOfWhitespace | src/parseMenu.ts:30 | A whitespace-only line trims to the empty string |
| Text.TrimIgnoresPadding | src/parseMenu.ts:30 | Whitespace added in front of or behind a line does not change its trim |
| Text.TrimIdempotent | src/parseMenu.ts:30 | Trimming a trimmed line changes nothing |

## Left out

- `index.ts` is not part of this model. It launches a visible browser, opens a web page, pauses
  and closes the browser. It never calls the parser, and all of it is I/O.
- `src/utils.ts` is not part of this model. Its file reading and saving are I/O. Splitting a
  file into lines on `\r\n` is done there, outside the parser, so the model takes the list of
  lines as its input. Neither `index.ts` nor `src/utils.ts` calls `parseMenu`.
- The record fields the parser never sets (`dateString`, `date`, and a serving's `menuType`,
  `title`, `name` and `ingredients`) are not modelled. No code in the core fills them, and the
  `Date` type and the clock behind it are outside the model.
- Text.IsWhitespace: the set of code points trim strips is the ECMAScript WhiteSpace and
  LineTerminator set, with the Unicode "Zs" category as of current Unicode versions. A
  JavaScript engine built on a different Unicode version could differ for a future "Zs"
  addition. Characters are Dafny `char`s, which are Unicode scalar values, while JavaScript
  strings are sequences of UTF-16 code units. Every whitespace code point and every character
  of the compared literals lies in the Basic Multilingual Plane, so on well-formed input the
  results are the same as under JavaScript's code-unit semantics. There is no normalisation or
  case folding, just as in the source.
- The mutation of the `menuItem` object and its `servings` array in place is modelled as
  reassigning immutable values. Each day pushed is a fresh object after the reset, so no
  aliasing between emitted days can be observed.
