# Calendar reminder bot — a Dafny model

A Telegram bot shows a month calendar as an inline keyboard. The user moves between months and picks a travel date. Ticket booking for that date opens sixty days ahead, so the bot does one of two things:

- it refuses a date whose booking has already opened;
- otherwise it answers with two reminder instants, sixty days before the date at 02:15 and at 04:15. They are written as `YYYYMMDDTHHmmss` stamps with a literal `Z`, for a calendar-event link.

This project models the core of that bot and proves properties about it:

- **`calendar.ts`** — the `Calendar` class: its displayed year and month, the optional selected date, and month navigation. It also covers date selection and the keyboard `generateInlineKeyboard` builds.
- **`ReminderBot.ts`** — `reduceDaysAndSetTime`, `getEventDate`, and the callback handler `bot.on("callback_query:data", …)`. The handler decodes the button data, drives the calendar and applies the sixty-day cut-off.

Files:

- `civil_dates.dfy` (`CivilDates`) — proleptic Gregorian arithmetic standing in for JavaScript `Date`:
  - day numbers from 1970-01-01, month lengths and weekdays (Sunday = 0);
  - the normalisation `new Date(y, m, d)` and `setDate` apply to an out-of-range month or day, and the constructor's reading of years 0 to 99 as 1900 to 1999;
  - wall-clock instants in whole seconds.
- `decimal_text.dfy` (`DecimalText`) — decimal text of numbers:
  - `Number.prototype.toString`;
  - moment's zero-filled fields;
  - digit parsing.
- `calendar.dfy` (`CalendarEngine`) — the keyboard builder and the `Calendar` class:
  - grammy's `InlineKeyboard` is modelled by what `text` and `row` do to its rows;
  - `Keyboard(y, m, today)` says what the keyboard of a month is;
  - the `Calendar` class has methods proved against that specification.
- `reminder_bot.dfy` (`ReminderBot`) — the reminder instants and their stamps, the sixty-day cut-off, `parseInt` and callback decoding, and the handler.

Conventions of the model:

- **Months are zero-based**, as `Date.getMonth` returns them.
- **Ambient clock reads are parameters.** Each `new Date()` becomes a parameter: `today: Date` in the calendar, `now: Clock` (a date plus milliseconds since its midnight) in the handler.
- **Buttons are typed cells.** They are `Cell` values; `Button(c)` gives the text and callback data each cell is drawn with.
- **JavaScript dates are `JsDate`.** A `JsDate` is either a calendar day or `InvalidDate`. `parseInt`'s `NaN` is `None`.

Behaviour of the code that the model keeps:

- **Trailing empty row.** When the last day of the month closes a row, `keyboard.row()` has already opened a new, empty row, so the keyboard ends with an empty row. `Keyboard` includes that row, and `KeyboardShape` states exactly when it is there.
- **Past days.** Past days of the current month are drawn exactly like blanks (`" "` with `"ignore"`). They are `DayDisabled(d)` cells, whose `Button` is the blank's.
- **Out-of-range days.** A day outside the displayed month is not an error. `new Date(y, m, day)` rolls it into a neighbouring month, and `SelectDate` does the same.
- **Years 0 to 99.** `new Date(y, m, d)` reads such a year as 1900 + y, so month lengths, weekdays and selected dates of a displayed year 0 to 99 are those of 1900 to 1999 (`NewDate`, `YearZeroIsNineteenHundred`). `setDate` in `reduceDaysAndSetTime` does no such mapping (`MakeDate`).
- **A `date_` day that is not a number.** The bot selects the invalid date. `NaN <= 60` is false, so it answers with a link whose stamps are moment's `"Invalid date"` followed by `Z`. `HandleCallback` states this case.
- **Day count at the cut-off.** The cut-off counts whole days from the current instant to the selected date's midnight, rounding down. At any time after midnight, the count is one less than the difference of the two dates. `NearDateRefused` shows this: 2025-06-15 seen at noon on 2025-06-01 counts 13 days.

## Model

| member | source | states |
|---|---|---|
| CivilDates.DaysInMonth | calendar.ts:34 | A month has 28 to 31 days; February has 29 exactly in Gregorian leap years |
| CivilDates.MonthStep | calendar.ts:34 | The first of the next month (of January of the next year after December) comes `DaysInMonth` days after the first of this month |
| CivilDates.DayNumberBounds | calendar.ts:135 | A valid date's day number lies inside its month and inside its year |
| CivilDates.DayNumberInjective | calendar.ts:135 | Distinct valid dates have distinct day numbers |
| CivilDates.EpochSecondsInjective | ReminderBot.ts:103 | Distinct valid wall-clock instants have distinct epoch seconds |
| CivilDates.WeekdayAgreesWithSakamoto | calendar.ts:39 | The weekday derived from the day number agrees with Sakamoto's independent weekday formula |
| CivilDates.MakeDate | ReminderBot.ts:113-114 | `setDate` normalisation: the valid date `d - 1` days after the first of month `m` (carried into the year); an in-range date comes back unchanged |
| CivilDates.NewDate | calendar.ts:135 | `new Date(y, m, d)` first reads a year 0 to 99 as 1900 to 1999, then gives the valid date `d - 1` days after the first of month `m` of that year; an in-range date comes back as that day of the year it reads |
| CivilDates.YearZeroIsNineteenHundred | calendar.ts:34 | `new Date(0, 1, 29)` is 1900-03-01: year 0 is read as 1900, which has no 29 February |
| CivilDates.FromEpochSeconds | ReminderBot.ts:103 | `new Date(t * 1000)` read in wall-clock fields is the valid instant whose epoch seconds are `t` |
| DecimalText.Digits | calendar.ts:97 | `toString` of a natural is a non-empty run of digits without a leading zero, one digit exactly below 10 |
| DecimalText.ParseDigitsOfDigits | ReminderBot.ts:64 | Parsing the digits `toString` prints gives the number back |
| DecimalText.ParseFixedDigits | ReminderBot.ts:103-105 | A number below 10^w parses back from its w-digit field |
| DecimalText.ZeroFillIsFixed | ReminderBot.ts:103-105 | moment's zero fill of a number that fits `w` digits is exactly its `w`-digit field |
| DecimalText.FixedDigitsOfParse | ReminderBot.ts:103-105 | Every run of digits is the fixed-width field of its own value |
| CalendarEngine.EmitCell | calendar.ts:97-102 | Emitting a cell appends it to the open row and opens a new row exactly when it completes a row of seven |
| CalendarEngine.EmitBlank | calendar.ts:108-110 | A trailing blank extends the open row without opening a new one |
| CalendarEngine.RowsCell | calendar.ts:93-111 | Cutting cells into rows of seven keeps every cell, in order, at row `i / 7` and column `i % 7` |
| CalendarEngine.MarkupOfCells | calendar.ts:100-111 | After the cells and the blanks completing their last row, the keyboard is the rows of seven, followed by an empty row exactly when no blank was needed |
| CalendarEngine.DayGridShape | calendar.ts:87-111 | Leading and trailing blanks are each fewer than seven, and blanks plus days fill whole rows |
| CalendarEngine.DayGridCells | calendar.ts:86-111 | Below the weekday row come the leading blanks, the days of the month in order, then trailing blanks |
| CalendarEngine.KeyboardRows | calendar.ts:63-111 | The keyboard is the header, the weekday row, then the day grid in rows of seven; it ends with an empty row exactly when the last day closes a row |
| CalendarEngine.KeyboardShape | calendar.ts:87-111 | A three-button header, the weekday row, day rows of exactly seven cells; padding fewer than seven, and zero exactly when the last day closes a row |
| CalendarEngine.KeyboardHeader | calendar.ts:55-78 | The previous control is a blank exactly in the current month, the next control is a blank exactly more than twelve months ahead, and the title names the month and year |
| CalendarEngine.KeyboardDays | calendar.ts:93-98 | Day `d` sits at row `(lead + d - 1) / 7` and column `(lead + d - 1) % 7`, and it is disabled exactly in the current month before today |
| CalendarEngine.KeyboardBlanks | calendar.ts:86-111 | Every other cell of the day rows is a blank |
| CalendarEngine.DayColumn | calendar.ts:87-90 | Day `d` is drawn in the Monday-first column of its own weekday |
| CalendarEngine.NavigationStaysInRange | calendar.ts:64-77 | Pressing a shown navigation control keeps the displayed month between the current month and thirteen months ahead |
| CalendarEngine.MonthIndexInjective | calendar.ts:117-131 | A (year, month) pair with the month in 0..11 is determined by its month index |
| CalendarEngine.February2024 | calendar.ts:86-103 | February 2024 seen on 2024-02-10 has 29 days and three leading blanks; days 1-9 are disabled and days 10-29 selectable |
| CalendarEngine.StartKeyboard | calendar.ts:63-84 | The three header buttons make the first row and the seven day names the second, with nothing after them |
| CalendarEngine.LayOutLeadingBlanks | calendar.ts:87-90 | The loop appends `n` blanks to the open row |
| CalendarEngine.PutCell | calendar.ts:97-102 | One more day button is laid out: the builder holds the cells so far plus this one, a new row opened exactly after a seventh cell, and the counter moves on by one |
| CalendarEngine.LayOutDays | calendar.ts:93-103 | The loop lays out the day cells after the leading blanks, opening a new row after every seventh cell |
| CalendarEngine.LayOutTrailingBlanks | calendar.ts:106-111 | The loop appends `k` blanks to the open row without opening a new one |
| CalendarEngine.Calendar.constructor | calendar.ts:25-30 | A new calendar shows today's year and month, with nothing selected |
| CalendarEngine.Calendar.GetDaysInMonth | calendar.ts:33-35 | Day 0 of the next month is the last day of this one, so the result is the length of the month in the year `new Date` reads (years 0 to 99 as 1900 to 1999) |
| CalendarEngine.Calendar.GetFirstDayOfWeek | calendar.ts:38-40 | The weekday of the first of the month, Sunday = 0, in the year `new Date` reads (years 0 to 99 as 1900 to 1999), agreeing with Sakamoto's formula |
| CalendarEngine.Calendar.GenerateInlineKeyboard | calendar.ts:43-114 | The grid the builder holds is exactly `Keyboard(currentYear, currentMonth, today)`, whose month length and weekdays are those of the year `new Date` reads (years 0 to 99 as 1900 to 1999) |
| CalendarEngine.Calendar.ChangeMonth | calendar.ts:117-131 | The month moves one step, stays in 0..11, and the year changes by exactly one only on wrap; the selection is untouched |
| CalendarEngine.Calendar.SelectDate | calendar.ts:134-136 | Only the selection changes; it becomes the day `day - 1` after the first of the displayed month, its year read as `new Date` reads it (that very date when in range), or the invalid date for `NaN` |
| CalendarEngine.Calendar.GetSelectedDate | calendar.ts:139-141 | A selected calendar day is always a valid date |
| CalendarEngine.ChangeMonthAndBack | calendar.ts:117-131 | One step forward and one back, in either order, restores the displayed month and keeps the selection |
| CalendarEngine.SelectionLifecycle | calendar.ts:29 | Nothing is selected on a new calendar; after choosing an in-range day, that day of the displayed month is |
| CalendarEngine.DecemberWraps | calendar.ts:124-129 | The month after December 2024 is January 2025, and the one before that is December 2024 again |
| ReminderBot.ReduceDaysAndSetTime | ReminderBot.ts:112-117 | The instant is the day sixty calendar days before the date at 02:15:00 or 04:15:00; an invalid date gives `NaN` |
| ReminderBot.ReminderTimeOfDay | ReminderBot.ts:113-116 | A reminder falls on the day sixty days earlier, at 02:15:00 for the first and 04:15:00 for the second |
| ReminderBot.RemindersTwoHoursApart | ReminderBot.ts:115 | The first reminder is exactly 7200 seconds before the second |
| ReminderBot.ReminderOnBaseDate | ReminderBot.ts:113-115 | The reminder is 02:15 or 04:15 on the valid date sixty days earlier |
| ReminderBot.ChristmasBaseDate | ReminderBot.ts:114 | Sixty days before 2025-12-25 is 2025-10-26 |
| ReminderBot.StampRoundTrip | ReminderBot.ts:103-105 | A stamp of a year 0-9999 is 8 digits, `T`, 6 digits, `Z`, and reads back as the instant it came from |
| ReminderBot.ParseStampExact | ReminderBot.ts:103-105 | Every string that reads back as an instant is exactly that instant's stamp |
| ReminderBot.StampUnique | ReminderBot.ts:103-108 | An instant has exactly one stamp |
| ReminderBot.FormatInstant | ReminderBot.ts:103-105 | Formatting epoch seconds gives the stamp of that instant; `NaN` gives `Invalid dateZ` |
| ReminderBot.GetEventDate | ReminderBot.ts:101-110 | The pair holds the stamps of the two reminder instants of the date, or `Invalid dateZ` twice for the invalid date |
| ReminderBot.ChristmasIsStamp | ReminderBot.ts:101-117 | The reminder instants of 2025-12-25 have the stamps `20251026T021500Z` and `20251026T041500Z` |
| ReminderBot.ChristmasReminders | ReminderBot.ts:101-110 | `getEventDate` of 2025-12-25 gives exactly `("20251026T021500Z", "20251026T041500Z")` |
| ReminderBot.DiffInDaysIsDayDistance | ReminderBot.ts:69-72 | The day count is the distance between the two dates, one less unless it is exactly midnight |
| ReminderBot.BookingWindow | ReminderBot.ts:74 | A date is accepted exactly when it is more than 60 days after today, or more than 61 once today's midnight has passed |
| ReminderBot.RemindersInFuture | ReminderBot.ts:74-82 | Both reminders of an accepted date are after the current instant, and in order |
| ReminderBot.NearDateRefused | ReminderBot.ts:70-77 | 2025-06-15 seen at noon on 2025-06-01 is 13 days away, so it is refused |
| ReminderBot.HexValue | ReminderBot.ts:64 | A hexadecimal digit has a value in 0..15 |
| ReminderBot.TakeWhile | ReminderBot.ts:64 | The result is the longest prefix whose characters all satisfy the predicate |
| ReminderBot.DropSpaces | ReminderBot.ts:64 | `parseInt` skips leading white space and nothing else: the result is a suffix, every character dropped before it is white space, and it does not start with white space |
| ReminderBot.ParseMagnitudeOfDigits | ReminderBot.ts:64 | `parseInt` reads the digits `toString` prints as the number they print |
| ReminderBot.ParseMagnitudeOfHex | ReminderBot.ts:64 | After `0x`, the magnitude read is the hexadecimal digits in base 16 |
| ReminderBot.ParseIntOfHex | ReminderBot.ts:64 | `parseInt` reads `0x` followed by hexadecimal digits as their base-16 value |
| ReminderBot.ParseIntOfNegativeHex | ReminderBot.ts:64 | `parseInt` reads `-0x` followed by hexadecimal digits as the negated base-16 value |
| ReminderBot.ParseIntOfString | ReminderBot.ts:64 | `parseInt` inverts `toString` on every integer, negative ones included |
| ReminderBot.FixedCallbacks | ReminderBot.ts:54-62 | `ignore`, `prev_month` and `next_month` dispatch to their own events |
| ReminderBot.DateCallback | ReminderBot.ts:63-64 | `date_N` for the decimal text of any integer `N` chooses day `N` |
| ReminderBot.CallbackRoundTrip | calendar.ts:64-97 | The callback data of every button decodes to what that button asks for |
| ReminderBot.AnswerDate | ReminderBot.ts:64-93 | The day is selected; the reply is "booking already started" exactly when the day count is at most 60, otherwise a link with both reminder stamps; `NaN` selects the invalid date, which is never refused |
| ReminderBot.HandleEvent | ReminderBot.ts:53-98 | `ignore` changes nothing and only acknowledges; navigation moves the month one step, keeps the selection and redraws; a chosen day is answered as in `AnswerDate` with the month kept; anything else redraws unchanged |
| ReminderBot.HandleCallback | ReminderBot.ts:50-99 | The same outcomes stated on the raw callback data through `ParseCallback` |
| ReminderBot.RemindThenNext | ReminderBot.ts:43-62 | On a calendar created today, `/remind` shows today's month, and pressing the next control then shows the following month, wrapping December into January |

## Left out

- Transport and process set-up is not modelled: the grammy `Bot`, the express webhook, `setWebhook`/`deleteWebhook`, polling, dotenv and `bot.catch` logging. They are I/O.
- The messages themselves are not modelled: `ctx.reply`, `answerCallbackQuery`, `editMessageReplyMarkup`, and the Markdown text of the Google Calendar link. A `Reply` value carries only the decision, and for the link the selected date and the two stamps.
- The global `calendar` shared by every chat is modelled as one calendar object driven by one session; interleaving between chats is concurrency and is left out.
- The ambient `new Date()` reads become parameters (`today`, `now`).
- Time zones, daylight-saving time and UTC offsets of JavaScript `Date` and moment are left out. Instants are wall-clock seconds with no zone, and `getTime` is the wall-clock milliseconds.
- The finite range of JavaScript `Date` and floating-point millisecond arithmetic are left out; years and days are unbounded integers.
- `StampRoundTrip`: its contract is limited to years 0 to 9999. Outside that range moment prints a sign or more than four year digits, and the stamp is no longer sixteen characters.
- `ParseInt`: it models decimal and `0x` hexadecimal digit runs with an optional sign after white space. It does not model digit strings too long to be exact in floating point. Of the Unicode white space `parseInt` skips, it covers the ASCII set, U+00A0, U+FEFF, U+2028 and U+2029, and not the other space separators.
- moment's `format("DD MMM YYYY")` text in the reply, and the `Date` text in "You selected: …", are message text and are not modelled.
- `InlineKeyboard` serialisation to the Bot API is not modelled; the keyboard is the grid of rows the builder holds.
