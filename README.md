# Weekly planner: a verified model of its core

The planner shows one week as a list of day cards, newest day first. It can
hide the weekend, keeps a list of items per calendar date, and keeps a draft
text in each day's add-item input. Items can be reordered by drag and drop
and edited in place. The week can be exported as HTML, one block per day.
The whole state lives in the fragment of the page URL as base 64 encoded
JSON.

This project models that core in Dafny and proves what the code promises:

- the URL state codec (`Base64`, `UrlState`);
- the calendar arithmetic behind the week:
  - day numbers and civil dates (`CivilDate`);
  - `YYYY-MM-DD` text (`IsoDate`);
  - `Date` objects and `getMondayOfWeek`, `getWeekNumber`, `isToday` and `formatISODate` (`DateUtils`);
  - the week navigation bar (`WeekNavigation`);
- the week derivation and the add-item rule of the application component (`App`);
- drag-and-drop reordering (`DragReorder`), and both day card components (`DayListDayCard`, `DayCard`);
- the inline-edit state machine of an item row (`DayItem`);
- the rich-text export:
  - the shared block format and the heading-tag rewrite (`RichText`);
  - the two export builders (`RichTextSectionGenerate`, `GenerateRichText`);
  - the content of the rich-text section (`RichTextSection`).

Under the hood:
- `Wrappers` (Option), `Types` (`Item`, `DayData`, the date buckets);
- `Seqs` (remove, insert and reverse on sequences);
- `Text` (JavaScript's `trim`, `parseInt`, `Number`, `String` of an integer, and a global `replace`).

An object whose fields the source updates becomes a class with `modifies`
clauses:
- the page location;
- a `Date`;
- the planner component;
- each day card;
- an item row;
- the drag data store.

Loops become methods with invariants, proved against specification functions:
- the week loop;
- the splice sequence of a drop;
- both export loops.

## Model

| member | source | states |
|---|---|---|
| Base64.Encode | src/urlState.ts:9 | `btoa`'s output uses only the alphabet of section 4 of RFC 4648 and `=`; `=` appears only in the last two places, and a `=` in the second-to-last place is followed by another |
| Base64.Btoa | src/urlState.ts:9 | `btoa` of `n` characters has `4 * ceil(n / 3)` characters |
| Base64.EncodeLength | src/urlState.ts:9 | the encoding of `n` bytes has length `4 * ceil(n / 3)`, a multiple of 4 |
| Base64.UnpaddedLength | src/urlState.ts:9 | the unpadded encoding of `n` bytes has length 4 per whole group of 3, plus 2 or 3 characters for a remainder of 1 or 2 bytes |
| Base64.UnpaddedRemainder | src/urlState.ts:9 | the unpadded length mod 4 is 0, 2 or 3, according to the byte count mod 3 |
| Base64.ValueOfCharOf | src/urlState.ts:9 | every 6-bit value is read back from its alphabet character |
| Base64.Group3Decodes | src/urlState.ts:19 | the four characters of a full group decode to its three bytes |
| Base64.TailDecodes1 | src/urlState.ts:19 | the two characters of a one-byte tail decode to that byte |
| Base64.TailDecodes2 | src/urlState.ts:19 | the three characters of a two-byte tail decode to those bytes |
| Base64.DecodeUnpadded | src/urlState.ts:19 | decoding an unpadded encoding gives the bytes back |
| Base64.StripEncoding | src/urlState.ts:19 | removing the padding of an encoding leaves the unpadded encoding |
| Base64.RemoveWhitespace | src/urlState.ts:19 | `atob`'s white-space removal leaves no ASCII white space |
| Base64.RemoveWhitespaceNone | src/urlState.ts:19 | text without ASCII white space is left as it is |
| Base64.RemoveWhitespaceKeeps | src/urlState.ts:19 | a character that is not white space survives the removal of white space |
| Base64.DecodeChars | src/urlState.ts:19 | unpadded text of `n` characters decodes to `3n/4` bytes, rounded down |
| Base64.Decode | src/urlState.ts:19 | a successful decode gives three bytes per four significant characters, rounded down |
| Base64.DecodeEncode | src/urlState.ts:9-19 | decoding the encoding of any byte string gives it back |
| Base64.DecodeRejectsForeignChar | src/urlState.ts:18-23 | a text with a character outside the alphabet, `=` and white space does not decode (`atob` throws); `null` results |
| Base64.DecodeRejectsLengthOneModFour | src/urlState.ts:18-23 | a text whose unpadded length is 1 mod 4 does not decode |
| Base64.BytesOf | src/urlState.ts:9 | a Latin-1 string becomes the bytes of its code points, one per character |
| Base64.CharsOf | src/urlState.ts:19 | bytes become the string with those code points, which is Latin-1 |
| Base64.Atob | src/urlState.ts:19 | what `atob` returns is always Latin-1 text |
| Base64.AtobBtoa | src/urlState.ts:9-19 | `atob(btoa(s)) == s` for every Latin-1 string |
| UrlState.EncodeStateToBase64 | src/urlState.ts:8-10 | encoding succeeds exactly when the JSON text is Latin-1, and then `atob` of the result gives that JSON text back |
| UrlState.DecodeBase64ToState | src/urlState.ts:17-24 | the result is `None` (the source's `null`) when `atob` fails, and otherwise what `JSON.parse` gives, `None` when it throws |
| UrlState.DecodeEncodeState | src/urlState.ts:9-19 | a state whose JSON round-trips and is Latin-1 encodes to a non-empty text that decodes to the state |
| UrlState.Location.constructor | src/urlState.ts:32 | a location holds the given path, query and fragment |
| UrlState.Location.Hash | src/urlState.ts:42 | `location.hash` is empty exactly when the fragment is, and otherwise is `#` followed by the fragment |
| UrlState.Location.UpdateUrlWithState | src/urlState.ts:30-35 | on success the fragment becomes the encoded state; path and query never change; when `btoa` throws the location is unchanged |
| UrlState.Location.GetStateFromUrl | src/urlState.ts:41-46 | `None` for an empty fragment, otherwise the decoded fragment |
| UrlState.Location.WriteThenRead | src/urlState.ts:30-46 | writing a round-tripping Latin-1 state into the URL and reading it back gives the state, with path and query untouched |
| Text.TrimStart | src/App.tsx:137 | the result is a suffix that starts with no white space, and everything dropped is white space |
| Text.TrimEnd | src/App.tsx:137 | the result is a prefix that ends with no white space, and everything dropped is white space |
| Text.TrimEmptyIffBlank | src/App.tsx:137 | `s.trim() === ''` exactly when every character of `s` is ECMAScript white space |
| Text.TrimKeeps | src/App.tsx:137 | a character that is not white space survives trimming |
| Text.TrimUntouched | src/App.tsx:137 | a string that neither starts nor ends with white space is its own trim |
| Text.Trim | src/App.tsx:137 | the trimmed text neither starts nor ends with white space and is never longer than the input |
| Text.IntegerNumber | src/App.tsx:33 | `Number` of a blank text is 0; beyond that the model reads only optionally signed digit runs, as the App.GetWeekOffset line under Left out says |
| Text.ParseInt | src/components/DayCard/DayItem/DayItem.tsx:112 | `parseInt(s, 10)` is `NaN` exactly when no digit follows the leading white space and the optional sign |
| Text.Utf16Units | src/components/DayCard/DayItem/DayItem.tsx:112 | a code point takes one UTF-16 code unit, or two outside the Basic Multilingual Plane |
| Text.Utf16Length | src/components/DayCard/DayItem/DayItem.tsx:112 | `text.length` counts UTF-16 code units: one or two per code point, and exactly one per code point only when no character lies outside the Basic Multilingual Plane |
| Text.Utf16LengthPrefix | src/components/DayCard/DayItem/DayItem.tsx:40-44 | a prefix of a text has no more code units than the whole text |
| Text.ReplaceAll | src/components/RichTextSection/RichTextSection.tsx:41-43 | replacing a pattern by itself changes nothing, and a replacement as long as the pattern keeps the length |
| Text.PadDigits | src/dateUtils.ts:45 | a zero-padded field has exactly the requested width and only digits |
| Text.PadDigitsRoundTrip | src/dateUtils.ts:45 | a zero-padded field reads back as its value |
| Text.NatToString | src/components/DayCard/DayItem/DayItem.tsx:123 | the decimal form of an index is non-empty, all digits, with no leading zero |
| Text.NatToStringRoundTrip | src/components/DayCard/DayItem/DayItem.tsx:123 | the decimal form reads back as its value |
| Text.DigitPrefixLength | src/components/DayCard/DayItem/DayItem.tsx:112 | the longest digit prefix is all digits and is followed by a non-digit or the end |
| Text.ParseIntOfNatToString | src/components/DayCard/DayItem/DayItem.tsx:112 | `parseInt` of the decimal form of `v` is `v` |
| Text.AllDigitsPrefix | src/components/DayCard/DayItem/DayItem.tsx:112 | a string of digits is its own digit prefix |
| Text.IntegerNumberRejects | src/App.tsx:33 | the model takes a text holding a character other than digits, signs and white space as `NaN`; JavaScript's `Number` reads some such texts as numbers (fractions, exponents, hexadecimal, `Infinity`), as the App.GetWeekOffset line under Left out says |
| Text.IntegerNumberOfDigits | src/App.tsx:33 | `Number` of a run of digits is its value |
| Text.IntegerNumberOfNegatedDigits | src/App.tsx:33 | `Number` of `-` and a run of digits is the negated value |
| Text.ReplaceAllAbsent | src/components/RichTextSection/RichTextSection.tsx:41-43 | a global replace leaves a text without the pattern unchanged |
| Text.ReplaceAllAtPattern | src/components/RichTextSection/RichTextSection.tsx:41-43 | an occurrence at the front is replaced and the scan goes on after it |
| Text.ReplaceAllShort | src/components/RichTextSection/RichTextSection.tsx:41-43 | a text shorter than the pattern is unchanged |
| Text.ReplaceAllCons | src/components/RichTextSection/RichTextSection.tsx:41-43 | a first character that starts no occurrence is copied, and the rest is replaced on its own |
| Text.ReplaceAllSkipsFree | src/components/RichTextSection/RichTextSection.tsx:41-43 | text without the pattern's first character passes through, whatever follows it |
| Text.ReplaceAllSkipsTag | src/components/RichTextSection/RichTextSection.tsx:41-43 | a tag that the pattern neither starts nor is started by passes through, whatever follows it |
| Text.NoMatchAtTag | src/components/RichTextSection/RichTextSection.tsx:41-43 | if neither of a tag and the pattern is a prefix of the other, the pattern does not start the tag followed by anything |
| CivilDate.DaysInMonth | src/dateUtils.ts:24 | a month has 28 to 31 days, and 29 exactly for February of a leap year |
| CivilDate.YearLength | src/dateUtils.ts:9-11 | consecutive year starts are a year's length apart |
| CivilDate.MonthsTile | src/dateUtils.ts:24 | each month starts where the previous one ends, and December ends at the year's length |
| CivilDate.YearOf | src/dateUtils.ts:9 | every day number lies in the year found for it |
| CivilDate.YearOfUnique | src/dateUtils.ts:9 | that year is the only one containing the day |
| CivilDate.MonthOf | src/dateUtils.ts:24 | every day of a year lies in the month found for it |
| CivilDate.MonthOfUnique | src/dateUtils.ts:24 | that month is the only one containing the day |
| CivilDate.CivilFromDays | src/dateUtils.ts:44-46 | every day number has a valid calendar date that maps back to it |
| CivilDate.CivilRoundTrip | src/dateUtils.ts:44-46 | every valid date comes back from its day number, so dates and day numbers correspond one to one |
| CivilDate.DayOfWeek | src/dateUtils.ts:22 | `getDay` is in `0..6` |
| CivilDate.DayOfWeekPeriodic | src/dateUtils.ts:24 | the weekday repeats every seven days |
| CivilDate.IsoWeekday | src/components/WeekNavigation.tsx:38 | the ISO weekday is in `1..7` and is 1 exactly on Mondays |
| CivilDate.ThursdayWeek | src/components/WeekNavigation.tsx:38 | a week counted by its Thursday is in `1..53` |
| CivilDate.ThursdayWeekIn | src/components/WeekNavigation.tsx:38 | a week whose Thursday falls in year `y` is numbered by the whole weeks since that year began, plus one |
| CivilDate.IsoWeekNumber | src/components/WeekNavigation.tsx:38 | the ISO 8601 week number lies in `1..53` |
| CivilDate.IsoWeekOfJanuaryFourth | src/components/WeekNavigation.tsx:38 | January 4 is always in week 1 |
| CivilDate.IsoWeekConstantInWeek | src/components/WeekNavigation.tsx:38 | all seven days from a Monday share its week number |
| CivilDate.ThursdayWeekStep | src/components/WeekNavigation.tsx:38 | a week later the number is one more, or 1 in a new year |
| CivilDate.IsoWeekSuccessor | src/components/WeekNavigation.tsx:38 | the Monday a week later has the next week number, or week 1 |
| IsoDate.FormatYear | src/dateUtils.ts:45 | years 0..9999 are four digits, other years a sign and six digits, each reading back as the year |
| IsoDate.Format | src/dateUtils.ts:44-46 | a date of years 0..9999 is written `YYYY-MM-DD` with zero-padded fields that read back as year, month and day |
| IsoDate.Checked | src/components/WeekNavigation.tsx:23 | a parsed date is accepted exactly when it is on the calendar |
| IsoDate.Parse | src/components/WeekNavigation.tsx:23 | every date read from text is on the calendar and within six-digit years |
| IsoDate.ParseFormat | src/dateUtils.ts:44-46 | parsing a formatted date gives the date back |
| IsoDate.FormatInjective | src/dateUtils.ts:33-37 | two dates are written the same exactly when they are equal |
| DateUtils.TimeOfDay | src/dateUtils.ts:21-24 | the time of day is in `0..86399999` ms |
| DateUtils.DayAndTime | src/dateUtils.ts:21-24 | a time value splits uniquely into day number and time of day |
| DateUtils.TimeSplit | src/dateUtils.ts:21-24 | every time value is its day times a day's length plus its time of day |
| DateUtils.CivilOf | src/dateUtils.ts:22-23 | every instant has a valid calendar date |
| DateUtils.JsDate.FromTime | src/dateUtils.ts:21 | `new Date(t)` holds `t` |
| DateUtils.JsDate.Copy | src/dateUtils.ts:21 | `new Date(date)` holds the same time value |
| DateUtils.JsDate.GetDay | src/dateUtils.ts:22 | `getDay` is in `0..6` |
| DateUtils.JsDate.GetDate | src/dateUtils.ts:23 | `getDate` is in `1..31` |
| DateUtils.JsDate.SetDate | src/dateUtils.ts:24 | `setDate(k)` moves to day `k` of the month, past its end if need be, keeping the time of day |
| DateUtils.MondayOfWeek | src/dateUtils.ts:20-26 | the result is a Monday at the input's time of day, `7 * k` days from the Monday of the input's week; with offset 0 it is the input's day or one of the six before, and a Sunday goes six days back |
| DateUtils.MondayOffsetShift | src/dateUtils.ts:24 | offset `k` lands exactly `7 * k` days from the offset-0 result |
| DateUtils.GetMondayOfWeek | src/dateUtils.ts:20-26 | the copy-and-`setDate` sequence returns a fresh date holding `MondayOfWeek` and leaves the input alone |
| DateUtils.MondayBySetDate | src/dateUtils.ts:23-24 | the `getDate() - getDay() + (Sunday ? -6 : 1)` arithmetic passed to `setDate` reaches that Monday |
| DateUtils.MondayByDayOfMonth | src/dateUtils.ts:23-24 | the same holds whatever the day of the month, which cancels out |
| DateUtils.SetDateShift | src/dateUtils.ts:24 | `setDate(k)` moves by `k - getDate()` whole days |
| DateUtils.GetWeekNumber | src/dateUtils.ts:8-12 | the formula as written, in exact arithmetic, measured from `new Date(year, 0, 1)`, which reads a year in 0..99 as 1900 + year; at least 1 for every other year |
| DateUtils.CeilWeeks | src/dateUtils.ts:11 | `Math.ceil(x / 7)` of a positive day count is at least 1 |
| DateUtils.CeilWeeksMonotone | src/dateUtils.ts:11 | the ceiling never decreases as its argument grows |
| DateUtils.CeilWeeksValue | src/dateUtils.ts:11 | the ceiling is `w` exactly on `(7(w-1), 7w]` days |
| DateUtils.WeekNumberInYear | src/dateUtils.ts:9-11 | the formula, once the year is known, is the ceiling of the days since January 1 of that year (of 1900 + year for years 0..99) plus that day's weekday plus one, over 7 |
| DateUtils.YearStartBracket | src/dateUtils.ts:9-10 | January 1 of an instant's own year is not after it, so `pastDaysOfYear` is not negative in every year outside 0..99, where that day is the reference |
| DateUtils.WeekNumberOfNewYear | src/dateUtils.ts:9-11 | January 1 at midnight is week 1 in every year outside 0..99 |
| DateUtils.WeekNumberOfTwoDigitYear | src/dateUtils.ts:9-11 | in year 50 the reference day is 1950-01-01, so midnight of 0050-06-01 gets week −99115 and January 1 of year 50 a negative week |
| DateUtils.WeekNumberMonotone | src/dateUtils.ts:9-11 | within one year the week number never decreases |
| DateUtils.NewYear2000 | src/dateUtils.ts:9 | January 1, 2000 is day 10957, a Saturday |
| DateUtils.YearOfInstant | src/dateUtils.ts:9 | an instant on date `d` is in `d`'s year |
| DateUtils.DayOfInstant | src/dateUtils.ts:10 | an instant on date `d` is on `d`'s day number |
| DateUtils.CivilOfDay | src/dateUtils.ts:22-23 | an instant on `d`'s day number has calendar date `d` |
| DateUtils.WeekNumberReaches54 | src/dateUtils.ts:5-11 | midnight of December 31, 2000 gets week 54, outside the promised 1..53 |
| DateUtils.WeekNumberDependsOnTimeOfDay | src/dateUtils.ts:10-11 | noon of January 1, 2000 gets week 2 although midnight gets week 1 |
| DateUtils.IsoWeekNumberOf | src/dateUtils.ts:3-7 | the week number the doc comment promises lies in 1..53 |
| DateUtils.IsoWeekNumberSameAllDay | src/dateUtils.ts:3-7 | the ISO week number of an instant is the same at every time of the day |
| DateUtils.IsoWeekOfDecember31In2000 | src/dateUtils.ts:3-7 | December 31, 2000, which the formula puts in week 54, is in ISO week 52 |
| DateUtils.YearBound | src/dateUtils.ts:45 | every valid time value has a year that six digits can write |
| DateUtils.IsTodayIffSameDay | src/dateUtils.ts:33-46 | `isToday(formatISODate(t))` holds exactly when `t` is on today's date |
| DateUtils.IsToday | src/dateUtils.ts:33-37 | a date string counts as today only if it reads as today's calendar date |
| DateUtils.FormatISODate | src/dateUtils.ts:44-46 | the date string reads back as the calendar date of the instant |
| WeekNavigation.FromISO | src/components/WeekNavigation.tsx:23 | a date is read exactly when it parses as a calendar date within range, and then gives its day number |
| WeekNavigation.FromToISODate | src/components/WeekNavigation.tsx:24 | reading back what `toISODate` writes gives the day number |
| WeekNavigation.ToISODate | src/components/WeekNavigation.tsx:24 | the written date reads back as the calendar date of the day number |
| WeekNavigation.GoToPreviousWeek | src/components/WeekNavigation.tsx:22-25 | a previous week exists exactly when the start is a valid date and the date 7 days earlier is in range, and it starts on that date |
| WeekNavigation.GoToNextWeek | src/components/WeekNavigation.tsx:28-31 | a next week exists exactly when the start is a valid date and the date 7 days later is in range, and it starts on that date |
| WeekNavigation.ShiftDays | src/components/WeekNavigation.tsx:22-31 | a shift gives a date exactly when the start date is valid and the target is in range |
| WeekNavigation.ShiftDaysMoves | src/components/WeekNavigation.tsx:22-31 | the shifted date is exactly `days` days from the start date |
| WeekNavigation.PreviousAfterNext | src/components/WeekNavigation.tsx:22-31 | next week and then previous week lead back to the start date, as `toISODate` writes it |
| WeekNavigation.NextAfterPrevious | src/components/WeekNavigation.tsx:22-31 | previous week and then next week lead back to the start date, as `toISODate` writes it |
| WeekNavigation.CanonicalRoundTrip | src/components/WeekNavigation.tsx:22-31 | a start date already written as `toISODate` writes it comes back unchanged |
| WeekNavigation.ToggleWeekends | src/components/WeekNavigation.tsx:34-36 | the weekend switch flips |
| WeekNavigation.WeekNumber | src/components/WeekNavigation.tsx:38 | the label exists exactly for a valid start date, and is its ISO 8601 week number, in 1..53 |
| WeekNavigation.WeekNumberOfDay | src/components/WeekNavigation.tsx:38 | the label of a date with day number `n` is the week number of `n` |
| WeekNavigation.MondayWeekLater | src/components/WeekNavigation.tsx:28-31 | a Monday plus seven days is a Monday, a week later or in week 1 |
| WeekNavigation.NextWeekOfMonday | src/components/WeekNavigation.tsx:28-38 | from a Monday, next week lands on a Monday seven days later, whose label is the next week or week 1 |
| WeekNavigation.NextWeekOfAugust11 | src/AppNavigation.test.tsx:19-32 | next week from Monday 2025-08-11 is 2025-08-18 |
| App.WeekOffsetOfDigits | src/App.tsx:31-34 | a `weekOffset` of digits, optionally after `-`, is read as that integer |
| App.WeekOffsetOfNonNumeric | src/App.tsx:31-34 | a non-numeric `weekOffset` gives offset 0 |
| App.GetWeekOffset | src/App.tsx:31-34 | the offset is the number `Number` reads from the parameter, and 0 when the parameter is absent (`Number(null)` is 0), blank, or read as `NaN` |
| App.DayValid | src/App.tsx:103-106 | every day of a valid week is a valid time value |
| App.RoundStep | src/App.tsx:103-130 | one loop round pushes the day's entry and gives it a draft unless it is a hidden weekend day; then nothing changes |
| App.DayOfWeekDay | src/App.tsx:104-108 | round `i` from a Monday is day `i` after it, with `getDay() == (i + 1) % 7` |
| App.ShownDay | src/App.tsx:110-113 | round `i` from a Monday is kept exactly when weekends are shown or it is Monday to Friday |
| App.DerivedDaysEntries | src/App.tsx:103-130 | the first `n` rounds push days 0, 1, ... in order, each dated, named and bucketed as its round says; 7 of them with weekends shown, else 5 |
| App.DerivedDays | src/App.tsx:103-130 | the first `n` rounds push at most `n` days, and all `n` when weekends are shown |
| App.WeekDays | src/App.tsx:94-133 | the derived week has at most seven days, and all seven when weekends are shown |
| App.AppendEntry | src/App.tsx:118-123 | pushing the next entry keeps the list in round order |
| App.SetDateNextDays | src/App.tsx:104-105 | `setDate(monday.getDate() + i)` is day `i` after the Monday, at its time of day |
| App.WeekDaysNewestFirst | src/App.tsx:103-133 | the displayed week is the kept days newest first: Sunday down to Monday, or Friday down to Monday |
| App.WeekDaysConsecutive | src/App.tsx:103-133 | consecutive rounds are consecutive calendar days |
| App.DayEntryIsToday | src/App.tsx:98-122 | an entry is marked today exactly when it is on today's date |
| App.WithDraft | src/App.tsx:126-129 | initialising a draft keeps every existing draft and gives a new date `''` |
| App.InitDraftsKeeps | src/App.tsx:126-129 | the loop never changes an existing draft |
| App.InitDraftsCovers | src/App.tsx:126-129 | every kept date has a draft after the loop |
| App.DefaultDraft | src/App.tsx:126-129 | initialising one more draft keeps all existing drafts |
| App.AddItem | src/App.tsx:138-140 | adding appends exactly the new item to the end of that date's bucket and leaves every other bucket unchanged |
| App.WithBucket | src/App.tsx:141-151 | the displayed days keep their length; the day of that date gets the new bucket, every other day is unchanged |
| App.DayAfter | src/App.tsx:104-105 | the copied and `setDate`'d date is day `i` after the Monday |
| App.WeekLoop | src/App.tsx:101-130 | the loop's pushed days and drafts are those of all seven rounds |
| App.WeekRound | src/App.tsx:104-129 | one round extends the days and drafts of `i` rounds to those of `i + 1` |
| App.WeekOf | src/App.tsx:95-133 | the effect's days are the offset week's kept days, newest first, and every kept date has a draft |
| App.Planner.constructor | src/App.tsx:19-23 | the initial items, drafts and weekend switch come from the URL state when it decodes, otherwise empty and hidden |
| App.Planner.DeriveWeekDays | src/App.tsx:94-134 | the effect sets the displayed days and the drafts as `WeekOf` says and changes nothing else |
| App.Planner.HandleAddItem | src/App.tsx:136-161 | a blank draft changes nothing; otherwise the untrimmed draft is appended to the date's bucket, the day shows it, only that draft is cleared, and the new state is written to the URL fragment unless `btoa` throws |
| DragReorder.FindIndex | src/components/DayList/DayCard/DayCard.tsx:112 | `findIndex` is -1 exactly when no item has the id, and otherwise the first item with it |
| DragReorder.Dest | src/components/DayList/DayCard/DayCard.tsx:119-131 | the destination is in `0..len-1`: the end for a target at or past the end, the target less one when the source preceded it, 0 below |
| DragReorder.ReorderItems | src/components/DayList/DayCard/DayCard.tsx:115-133 | the splice sequence computes `Reordered`, a permutation of the items of the same length; the older card does the same at src/components/DayCard/DayCard.tsx:78-96 |
| DragReorder.ReorderedPermutes | src/components/DayList/DayCard/DayCard.tsx:116-133 | reordering keeps every item, each as often as before; the older card does the same at src/components/DayCard/DayCard.tsx:79-96 |
| DragReorder.ReorderedAt | src/components/DayList/DayCard/DayCard.tsx:116-133 | the moved item is at the destination, items between source and destination shift one place, all others stay |
| DragReorder.DropAtEnd | src/components/DayList/DayCard/DayCard.tsx:121-123 | a target at or past the end moves the item last, the others in order; the older card does the same at src/components/DayCard/DayCard.tsx:84-86 |
| DragReorder.DropBeforeTarget | src/components/DayList/DayCard/DayCard.tsx:124-127 | a drop on another item places the moved item immediately before that item; the older card does the same at src/components/DayCard/DayCard.tsx:87-90 |
| DragReorder.DropOnItself | src/components/DayList/DayCard/DayCard.tsx:124-133 | a drop on the item itself, or on the one right after it, changes nothing |
| DragReorder.OthersKeepOrder | src/components/DayList/DayCard/DayCard.tsx:130-133 | removing the moved item from the result gives the others in their old order; the older card does the same at src/components/DayCard/DayCard.tsx:93-96 |
| DragReorder.SourceId | src/components/DayList/DayCard/DayCard.tsx:103-109 | non-empty drag data overrides `draggingId`; otherwise `draggingId` is used; the older card does the same at src/components/DayCard/DayCard.tsx:66-72 |
| DragReorder.DropSourceIndex | src/components/DayList/DayCard/DayCard.tsx:103-113 | the moved index is -1 or a valid index |
| DragReorder.DropResult | src/components/DayList/DayCard/DayCard.tsx:100-138 | a completed drop hands over a permutation of the items, of the same length |
| DragReorder.DropResultBySource | src/components/DayList/DayCard/DayCard.tsx:110-133 | an early return gives nothing; otherwise the result is the reordered list for the source index |
| DragReorder.FindSource | src/components/DayList/DayCard/DayCard.tsx:102-113 | the first steps of a drop compute the source index of `DropSourceIndex`; the older card does the same at src/components/DayCard/DayCard.tsx:65-76 |
| DragReorder.DropNeedsKnownSource | src/components/DayList/DayCard/DayCard.tsx:110-113 | a drop reorders exactly when there is a non-empty source id and some item carries it; the older card does the same at src/components/DayCard/DayCard.tsx:73-76 |
| DragReorder.DropMovesSource | src/components/DayList/DayCard/DayCard.tsx:112-133 | the first item with the source id is the one that ends up at the destination |
| DragReorder.DropFirstOnThird | src/components/DayList/DayCard/DayCard.test.tsx:421-453 | dropping the first of items 1, 2, 3 on index 2 gives 2, 1, 3 whatever `draggingId` is |
| DragReorder.DataTransfer.constructor | src/components/DayList/DayCard/DayCard.tsx:85-93 | a fresh drag data store is empty |
| DragReorder.DataTransfer.SetData | src/components/DayList/DayCard/DayCard.tsx:87-91 | `setData` stores the value, or does nothing where it throws; the older card does the same at src/components/DayCard/DayCard.tsx:50-54 |
| DragReorder.DataTransfer.GetData | src/components/DayList/DayCard/DayCard.tsx:104-109 | `getData` gives the stored value, or nothing where it throws; the older card does the same at src/components/DayCard/DayCard.tsx:67-72 |
| DayListDayCard.Card.constructor | src/components/DayList/DayCard/DayCard.tsx:39-83 | a card starts with no drag in progress and no pending refocus |
| DayListDayCard.Card.HandleKeyDown | src/components/DayList/DayCard/DayCard.tsx:42-49 | Enter asks for an item on the card's date and requests the refocus; other keys do nothing |
| DayListDayCard.Card.HandleDragStart | src/components/DayList/DayCard/DayCard.tsx:85-93 | the dragged id is remembered and put into the drag data where that works |
| DayListDayCard.Card.HandleDragEnd | src/components/DayList/DayCard/DayCard.tsx:95-98 | the drag state is cleared |
| DayListDayCard.Card.HandleDragOver | src/components/DayList/DayCard/DayCard.tsx:152-209 | dragging over a row makes it the drop target |
| DayListDayCard.Card.HandleDropOnIndex | src/components/DayList/DayCard/DayCard.tsx:100-138 | an early return calls nothing and keeps the drag state; a completed drop calls `onReorderItems` with the reordered list when a handler exists, and clears the drag state |
| DayListDayCard.DragFirstOntoThird | src/components/DayList/DayCard/DayCard.test.tsx:421-453 | dragging the first of three items onto the third gives the order 2, 1, 3 |
| DayCard.Card.constructor | src/components/DayCard/DayCard.tsx:45-46 | a card starts with no drag in progress |
| DayCard.Card.HandleKeyDown | src/components/DayCard/DayCard.tsx:38-42 | Enter asks for an item on the card's date; other keys do nothing |
| DayCard.Card.HandleDragStart | src/components/DayCard/DayCard.tsx:48-56 | the dragged id is remembered and put into the drag data where that works |
| DayCard.Card.HandleDragEnd | src/components/DayCard/DayCard.tsx:58-61 | the drag state is cleared |
| DayCard.Card.HandleDragOver | src/components/DayCard/DayCard.tsx:115-172 | dragging over a row makes it the drop target |
| DayCard.Card.HandleDropOnIndex | src/components/DayCard/DayCard.tsx:63-101 | an early return calls nothing and keeps the drag state; a completed drop calls `onReorderItems` with the reordered list when a handler exists, and clears the drag state |
| DayItem.CaretPosition | src/components/DayCard/DayItem/DayItem.tsx:40-44 | the caret is the requested index clamped into `0..len`, and `len` when none is requested |
| DayItem.DataIndex | src/components/DayCard/DayItem/DayItem.tsx:122-126 | the `data-index` of each character's span reads back as that character's position among the code points |
| DayItem.ClickIndex | src/components/DayCard/DayItem/DayItem.tsx:110-113 | a click without a `data-index`, or with one that is not a number, asks for the end of the text, `text.length` in UTF-16 code units; otherwise the parsed index |
| DayItem.ClickOnCharacter | src/components/DayCard/DayItem/DayItem.tsx:110-126 | a click on character `i` asks for caret offset `i`, which lies right before that character exactly when no character in front of it takes two code units |
| DayItem.ClickAfterAstralCharacter | src/components/DayCard/DayItem/DayItem.tsx:110-126 | in "😀ab" a click on `b` puts the caret at offset 2, which lies before `a` |
| DayItem.Utf16DataIndex | src/components/DayCard/DayItem/DayItem.tsx:122-126 | the corrected attribute reads back as the character's UTF-16 offset |
| DayItem.ClickOnCharacterUtf16 | src/components/DayCard/DayItem/DayItem.tsx:110-126 | with UTF-16 offsets as attributes, a click on any character puts the caret right before it |
| DayItem.Editor.constructor | src/components/DayCard/DayItem/DayItem.tsx:26-34 | a row starts not editing, with an empty draft, no caret request and the menu closed |
| DayItem.Editor.Caret | src/components/DayCard/DayItem/DayItem.tsx:36-51 | the caret the effect places when editing starts or a caret is requested: one exactly while editing, within the draft's `input.value.length` in UTF-16 code units |
| DayItem.Editor.MenuShown | src/components/DayCard/DayItem/DayItem.tsx:132 | the menu is shown only with a delete handler, and in a consistent row exactly when it is open |
| DayItem.Editor.MenuButtonEnabled | src/components/DayCard/DayItem/DayItem.tsx:152 | the menu button is enabled exactly with a delete handler, and a disabled button means no menu |
| DayItem.Editor.StartEdit | src/components/DayCard/DayItem/DayItem.tsx:53-57 | editing starts with the draft set to the text and the requested caret |
| DayItem.Editor.StopEditAndSave | src/components/DayCard/DayItem/DayItem.tsx:59-100 | `onSave(id, draft)` is emitted exactly when editing with a save handler; editing stops and the caret request is cleared |
| DayItem.Editor.HandleInputChange | src/components/DayCard/DayItem/DayItem.tsx:67-69 | typing replaces the draft and nothing else |
| DayItem.Editor.HandleInputKeyDown | src/components/DayCard/DayItem/DayItem.tsx:71-76 | Enter saves and stops editing as `stopEditAndSave` does; other keys change nothing and save nothing |
| DayItem.Editor.HandleTextClick | src/components/DayCard/DayItem/DayItem.tsx:109-114 | a click on the text starts editing with the caret of `ClickIndex` |
| DayItem.Editor.HandleTextKeyDown | src/components/DayCard/DayItem/DayItem.tsx:115-119 | Enter or space starts editing with the caret at the end, `text.length` in UTF-16 code units; other keys change nothing |
| DayItem.Editor.HandleMenuClick | src/components/DayCard/DayItem/DayItem.tsx:147 | the menu button toggles the menu only with a delete handler |
| DayItem.Editor.HandleContextMenu | src/components/DayCard/DayItem/DayItem.tsx:148-151 | a right-click opens the menu only with a delete handler |
| DayItem.Editor.CloseMenu | src/components/DayCard/DayItem/DayItem.tsx:137 | closing the menu changes nothing else |
| DayItem.Editor.ChooseDelete | src/components/DayCard/DayItem/DayItem.tsx:136-137 | the Delete entry asks to delete this item exactly when the menu is shown, which in a consistent row is when it is open, and closes it |
| DayItem.ClickBesideCharacters | src/components/DayList/DayCard/DayItem/DayItem.test.tsx:6-26 | this scenario of the test of the day-list copy of the item (whose own DayItem.tsx is not part of this model), played on the modelled item, src/components/DayCard/DayItem/DayItem.tsx: a click beside the characters edits the whole text with the caret at its end |
| DayItem.ClickOnThirdCharacter | src/components/DayList/DayCard/DayItem/DayItem.test.tsx:28-47 | this scenario of the test of the day-list copy of the item, played on the modelled item: a click on the character with index 2 puts the caret at 2 |
| DayItem.TypeThenEnter | src/components/DayList/DayCard/DayItem/DayItem.test.tsx:70-87 | this scenario of the test of the day-list copy of the item, played on the modelled item: typing and pressing Enter saves the edited text once; a second Enter saves nothing |
| DayItem.MenuWithoutDelete | src/components/DayCard/DayItem/DayItem.tsx:132-152 | without a delete handler the menu button is disabled and the menu never opens |
| RichText.HeadingTag | src/components/RichTextSection/generateRichText.ts:14 | an empty heading level falls back to `h3`; any other level is used as given; the other builder does the same at src/generateRichText.ts:17 |
| RichText.BuildDayContent | src/components/RichTextSection/generateRichText.ts:20-28 | the `+=` sequence builds the day's block: heading, one entry per item or one empty entry, list end; the other builder does the same at src/generateRichText.ts:24-32 |
| RichText.ItemLinesAppend | src/components/RichTextSection/generateRichText.ts:24-26 | the entries of two item lists one after the other are those of the joined list |
| RichText.ItemLinesAround | src/components/RichTextSection/generateRichText.ts:24-26 | an item's entry sits between the entries of the items before it and after it; the other builder does the same at src/generateRichText.ts:28-30 |
| RichText.EmptyDayBlock | src/components/RichTextSection/generateRichText.ts:21-22 | a day without items gets a list with exactly one empty entry; the other builder does the same at src/generateRichText.ts:25-26 |
| RichText.BlockEndsWithBlankLine | src/generateRichText.ts:32 | every block ends with `</ul>` and a blank line |
| RichText.Blocks | src/components/RichTextSection/generateRichText.ts:29 | there is one block per section, in order |
| RichText.ConcatAppend | src/components/RichTextSection/generateRichText.ts:31 | joining two lists of blocks one after the other joins their concatenation |
| RichText.RenderAppend | src/components/RichTextSection/generateRichText.ts:31 | exporting two lists of sections one after the other exports their concatenation |
| RichText.RenderTwo | src/components/RichTextSection/generateRichText.ts:31 | of two sections, the earlier one's block comes first, with exactly the blocks in between between them |
| RichText.RenderOne | src/components/RichTextSection/generateRichText.ts:31 | the export of one section is its block |
| RichText.RenderInit | src/components/RichTextSection/generateRichText.ts:31 | the export of a non-empty list is that of all but the last section followed by the last block |
| RichText.Render | src/components/RichTextSection/generateRichText.ts:31 | the export is empty exactly when there are no sections, since every block ends with a list end |
| RichText.Mismatch | src/components/RichTextSection/RichTextSection.tsx:41-43 | strings that differ at some index are not prefixes of each other |
| RichText.PassesItemLines | src/components/RichTextSection/RichTextSection.tsx:41-43 | item entries whose texts hold no `<` pass either rewrite pass unchanged |
| RichText.PassesBlockTail | src/components/RichTextSection/RichTextSection.tsx:41-43 | when no item text of the block holds `<`, everything of the block after its heading passes either pass unchanged |
| RichText.PassesOpenLevel | src/components/RichTextSection/RichTextSection.tsx:43 | for a level that holds no `<` and does not start with `/` (`LevelOk`), the level's opening tag passes the second pass unchanged |
| RichText.RetagBlockOpen | src/components/RichTextSection/RichTextSection.tsx:42 | when neither the heading nor an item text of the block holds `<` (`PlainSection`), the first pass turns the block's opening `<h3>` into the level's tag and leaves the rest |
| RichText.RetagBlockClose | src/components/RichTextSection/RichTextSection.tsx:43 | for a `LevelOk` level and a block whose heading and item texts hold no `<`, the second pass turns the remaining `</h3>` into the level's closing tag |
| RichText.HalfBlocks | src/components/RichTextSection/RichTextSection.tsx:41-43 | between the passes every block has the level's opening tag and a closing `h3` tag |
| RichText.RetagOpenAll | src/components/RichTextSection/RichTextSection.tsx:42 | when no heading or item text of any section holds `<` (`PlainSections`), the first pass over the whole export gives the half-rewritten blocks |
| RichText.RetagCloseAll | src/components/RichTextSection/RichTextSection.tsx:43 | for a `LevelOk` level and sections whose headings and item texts hold no `<`, the second pass over those gives the export at the level |
| RichText.RetagRender | src/components/RichTextSection/RichTextSection.tsx:41-43 | rewriting an `h3` export gives the export at the chosen level, when no heading or item holds `<` |
| RichText.RetagReachesItemText | src/components/RichTextSection/RichTextSection.tsx:41-43 | the rewrite also changes `<h3>` typed into an item's text |
| RichText.RetagAtH3 | src/components/RichTextSection/RichTextSection.tsx:40-44 | rewriting to `h3` itself changes nothing, whatever the text |
| RichTextSectionGenerate.DaySections | src/components/RichTextSection/generateRichText.ts:16-19 | there is one section per day, headed by its `dayName`, holding the items stored for its date or none |
| RichTextSectionGenerate.GenerateRichText | src/components/RichTextSection/generateRichText.ts:3-32 | the loop returns the export of every day's section, in list order |
| RichTextSectionGenerate.DaySectionsAppend | src/components/RichTextSection/generateRichText.ts:16 | the sections of two day lists one after the other are those of the joined list |
| RichTextSectionGenerate.BlocksInListOrder | src/components/RichTextSection/generateRichText.ts:16-31 | a day's block comes before that of every later day, with exactly the blocks of the days between them in between, as the test at src/components/RichTextSection/generateRichText.test.ts:33-52 checks |
| RichTextSectionGenerate.DayWithoutItems | src/components/RichTextSection/generateRichText.ts:21-22 | a day whose date has no items gets its label and one empty entry |
| RichTextSectionGenerate.IgnoresFormatAndWeekends | src/components/RichTextSection/generateRichText.ts:3-13 | two runs that differ only in the date format and the weekend switch return the same export |
| GenerateRichText.LuxonWeekdayModSeven | src/generateRichText.ts:21 | Luxon's weekday mod 7 counts from Sunday = 0, like `getDay` |
| GenerateRichText.WeekdayIndex | src/generateRichText.ts:20-21 | a day's weekday index exists exactly when its date is valid, and is the day of the week of that date |
| GenerateRichText.SkippedIff | src/generateRichText.ts:22 | a day is skipped exactly when weekends are hidden and it is a valid Saturday or Sunday |
| GenerateRichText.KeptDays | src/generateRichText.ts:19-22 | the kept days are no more than the days, come from the list, and none is a skipped day |
| GenerateRichText.KeptAll | src/generateRichText.ts:22 | with weekends shown every day is kept |
| GenerateRichText.KeptDaysAppend | src/generateRichText.ts:19-22 | filtering keeps the list order: the kept days of joined lists are the joined kept days |
| GenerateRichText.KeptOne | src/generateRichText.ts:22 | a single day is kept exactly when it is not skipped |
| GenerateRichText.KeptInPlace | src/generateRichText.ts:19-22 | a kept day stays between the kept days before it and those after it |
| GenerateRichText.SkippedLeavesNoBlock | src/generateRichText.ts:22 | a skipped day leaves no trace: the others are filtered as if it were not there |
| GenerateRichText.FormattedSections | src/generateRichText.ts:23-24 | each kept day gets its date in the chosen format as heading, over the items stored for its date |
| GenerateRichText.GenerateRichText | src/generateRichText.ts:4-36 | the loop with its `continue` returns the export of the kept days, in list order |
| GenerateRichText.Generated | src/generateRichText.ts:17-35 | the export is empty exactly when no day is kept |
| GenerateRichText.KeptStep | src/generateRichText.ts:19-22 | one more day extends the kept days by that day exactly when it is not skipped |
| GenerateRichText.SectionsStep | src/generateRichText.ts:24-33 | one more kept day adds its block at the end |
| GenerateRichText.AllDaysWhenWeekendsShown | src/generateRichText.ts:22 | with weekends shown the export has a block for every day |
| GenerateRichText.NoWeekendWhenHidden | src/generateRichText.ts:21-22 | with weekends hidden no kept day is a Saturday or a Sunday |
| RichTextSection.RichTextContent | src/components/RichTextSection/RichTextSection.tsx:30-46 | generated at `h3`; with `h3` selected the content is exactly the generated export |
| RichTextSection.ContentAtLevel | src/components/RichTextSection/RichTextSection.tsx:32-45 | with any other level, the content is the export of the shown days at that level, when no heading or item holds `<` |
| RichTextSection.ContentAsIfGeneratedAtLevel | src/components/RichTextSection/RichTextSection.tsx:32-45 | a non-empty `LevelOk` level, when no shown heading or item text holds `<`, gives what generating at that level directly would |
| RichTextSection.RetagSkipsPlainText | src/components/RichTextSection/RichTextSection.tsx:41-43 | text without `<` passes through the rewrite, and what follows it is rewritten on its own |

## Left out

- JSON: `JSON.stringify` and `JSON.parse` are built-ins and are not modelled. The model takes them as a pair of functions, and the round trip of a state is a hypothesis of the lemmas that need it (`UrlState.RoundTrips`).
- `btoa` throws on a character above U+00FF. The model gives `None` there, and `UpdateUrlWithState` leaves the location unchanged; the source would throw out of the handler.
- `atob` is modelled as the forgiving base 64 decode: ASCII white space removed, up to two `=` stripped from a length that is a multiple of 4, bits left over in the last character ignored.
- The page location is a class with path, query and fragment. `new URL(...)`, `history.replaceState` and the percent-encoding of other fragments are not modelled; a base 64 fragment needs no escaping.
- Time zones: `getDay`, `getDate`, `setDate` and `new Date(y, 0, 1)` use the local calendar, while `toISOString` uses UTC. The model has one calendar, so the days near midnight that the two disagree on are not modelled.
- UrlState.DecodeBase64ToState: the `console.error` call on a failed decode is logging only and is not modelled.
- DayItem.Editor.Caret: once the effect has placed the caret, the browser moves it as the user types; the model does not follow those moves.
- DateUtils.GetWeekNumber: computed in exact integer milliseconds. The floating-point division and daylight-saving days, where local midnights are not 86400000 ms apart, are not modelled.
- Time values are limited to the valid JavaScript range of 10^8 days. Arithmetic on NaN dates is not modelled.
- App.GetWeekOffset: `Number` is modelled for white space around an optionally signed run of decimal digits, and for empty text. Texts that `Number` reads as fractions, exponents, hexadecimal or `Infinity` are taken as `NaN`, so their offset 0 differs from the source.
- Strings are sequences of code points. A JavaScript string can also hold an unpaired surrogate, which the model cannot express; `text.length`, `input.value.length` and the caret count UTF-16 code units through `Text.Utf16Length`.
- Luxon: `DateTime.fromISO` is modelled only for `YYYY-MM-DD` and signed six-digit years. Luxon's other ISO forms, and times, are read as invalid.
- WeekNavigation.ShiftDays: a shift from an invalid date, or past the range, gives `None`. In the source `toISODate()` gives `null` there and the `!` hides it.
- WeekNavigation.PreviousAfterNext / WeekNavigation.NextAfterPrevious: these give back the date as `toISODate` writes it. The text itself comes back only when it was already in that form (`CanonicalRoundTrip`), as a signed six-digit year format of a four-digit year is rewritten.
- Luxon's `toFormat`, and the day names of `getFormattedDayName`, are functions taken as parameters (`toFormat`, `dayName`). Their format tokens are not modelled.
- The `today` of `new Date()` and the ids of `Date.now()` are parameters. Ids are not claimed to be unique.
- App.Planner.HandleAddItem requires a draft for the date. The source reads `newItems[dayDate].trim()`, which throws when there is none.
- App.Planner.DeriveWeekDays requires the week to lie within the valid time range.
- `setNewItems` and `setWeekDays` apply their updates immediately, in the order of the source. React's batching and re-rendering are not modelled.
- The other handlers of App.tsx (format, offset and heading-level setters, input change, save, delete, reorder) are not modelled.
- Focus, caret and timers are not modelled:
  - the refocus effect of the day list card, which clears `shouldRefocusAddInput` again;
  - the focus `setTimeout` that follows an add;
  - the `setSelectionRange` call of an item row.
- `preventDefault`, `effectAllowed` and `dropEffect` are not modelled; they only tell the browser what to show.
- The clipboard copy of the rich-text section and its status text are not modelled.
- The drop splices are modelled as reassignments of a sequence, on the working copy that `slice` makes. No aliasing with the card's `day.items` is possible.
- RichText.RetagRender / RichTextSection.ContentAtLevel / RichTextSection.ContentAsIfGeneratedAtLevel, and the helpers RichText.PassesBlockTail, PassesOpenLevel, RetagBlockOpen, RetagBlockClose, RetagOpenAll and RetagCloseAll, describe the rewritten export as an export at the chosen level.
  - As their rows say, they require that no heading or item text contains `<`; text that does is still rewritten, as `RetagReachesItemText` shows.
  - As their rows say, they require a level whose tag cannot be mistaken for `</h3>` (`LevelOk`).
  - An empty selected level gives the tags `<>` and `</>`.
- The replacement string of `replace` is taken literally. `$` patterns in a heading level are not modelled.
- These files only render markup and forward callbacks, and are not modelled:
  - `src/components/DayCard.tsx`, `src/components/DayList/DayList.tsx`;
  - `src/components/RichTextSection.tsx`, `src/components/SettingsDialog.tsx`;
  - both `DayCardContextMenu.tsx` files (beyond the Delete entry closing the menu);
  - the router, the entry point and the configuration.

## Findings

| source | as written | input that shows it | evidently intended | confidence | as-written member | corrected member |
|---|---|---|---|---|---|---|
| src/dateUtils.ts:8-12 | `ceil((days since January 1 + weekday of January 1 + 1) / 7)`, documented as the ISO week number in 1-53 | midnight of 2000-12-31 (2000 is a leap year starting on a Saturday) gives 54; noon of 2000-01-01 gives 2 while its midnight gives 1 | the ISO 8601 week number, in 1..53 and the same all day | not executed | DateUtils.WeekNumberReaches54 | DateUtils.IsoWeekNumberOf |
| src/components/DayCard/DayItem/DayItem.tsx:110-126 | each character's span carries its position among the code points (`Array.from(text)`) as `data-index`, and a click passes it on as the caret offset, which the input counts in UTF-16 code units | in "😀ab" the span of `b` has index 2, and caret offset 2 lies before `a` | the caret lands right before the clicked character | not executed | DayItem.ClickAfterAstralCharacter | DayItem.ClickOnCharacterUtf16 |

The corrected week number is the one the week navigation bar shows (`WeekNavigation.WeekNumber`); `DateUtils.IsoWeekNumberSameAllDay` and `DateUtils.IsoWeekOfDecember31In2000` prove it free of both effects.

The caret request of a click is read from the attribute as given (`DayItem.Editor.HandleTextClick`), so it is the same with either attribute: `DayItem.DataIndex` is the attribute as written and `DayItem.Utf16DataIndex` the corrected one. `DayItem.ClickOnCharacter` states both directions: the two agree exactly when no character in front of the clicked one lies outside the Basic Multilingual Plane.
