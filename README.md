# trido-rental booking widget, in Dafny

The repository is a one-page vehicle-rental booking screen, in two variants.
`trido/src/App.jsx` asks for a pick-up location and a free-text trip destination, and has a busy flag.
`src/App.jsx` asks for one destination, has no busy flag, and has a "Register" button in the header.
In both, the visitor fills in dates, times and a number of each vehicle.
The first booking goes through a registration screen.
The booking and the visitor's contact details are then posted as one flat record to a spreadsheet service.
A confirmation screen follows, and "Book Another Ride" starts over.

This project models and proves:

- **The vehicle selection** (`VehicleSelection`): a sparse map from vehicle name to a positive count.
  It is kept as the insertion-ordered list that `Object.entries` yields, because property order is creation order for non-index string keys (ECMA-262, OrdinaryOwnPropertyKeys, section 10.1.11.1).
- **The adjuster** `handleVehicleCountChange` (`Adjust`): adds a delta, clamps at zero, and deletes the entry at zero.
- **The total** `getTotalVehicles` (a `reduce`) and **the summary** `getSelectedVehiclesString` (a `map`/`join`).
- **`formatTimeForSheet`** (`SheetTime`): the code's own steps, namely `split(':')`, `parseInt`, the 12-hour arithmetic and the template literal, including the `NaN` and `undefined` cases. Its partner is a reader that turns the sheet form back into "HH:MM".
- **Date checks** (`BookingDate`): the date-order check `new Date(a) > new Date(b)`, as an order on (year, month, day). `formatDateForSheet` stays opaque.
- **One session per variant** (`TridoApp.Session`, `SiteApp.Session`): a class with the component's `useState` fields.
  Each handler is a method that changes only the fields it sets.
  The outcome of the network post is a boolean argument.
  The posted record is returned as `posted`, or `None` when nothing is posted.

Where the code's behaviour is easy to misread, the model follows the code as written:

- `formatTimeForSheet` is meant for the "HH:MM" an `<input type="time">` holds, but it accepts any string. A missing ':' prints `undefined` minutes, an unreadable hour prints `NaN` with "AM", and a seconds part is dropped. `SheetTime.FormatTime` does all three.
- Only `trido/src/App.jsx` has a busy flag.
- The date check refuses only an arrival strictly after the return. It lets through any pair in which a date does not parse, because every comparison with `Invalid Date` is false (`BookingDate.ArrivalAfterReturn`).
- A successful post does not clear the draft. Only "Book Another Ride" does (`Session.BookAnotherRide`).
- In `src/App.jsx` the header button opens registration with no booking check. `handleRegister` checks only the profile, so a record with an empty draft and `totalVehicles` 0 can be posted (`SiteApp.RegisterBeforeBooking`).

## Model

| member | source | states |
|---|---|---|
| Text.JoinSplit | trido/src/App.jsx:81 | joining the pieces of `s.split(':')` with ':' gives back `s` |
| Text.SplitJoin | trido/src/App.jsx:81 | splitting undoes joining when no part contains the separator |
| Text.SplitPrefix | trido/src/App.jsx:81 | a separator-free leading piece comes off as the first piece of the split |
| Text.JoinAppend | trido/src/App.jsx:91 | joining one more part appends the separator and that part |
| Text.Split | trido/src/App.jsx:81 | the split has at least one piece and no piece contains the separator |
| Decimal.NatText | trido/src/App.jsx:85 | the printed number is all digits, has no leading zero, and is one digit exactly below 10 |
| Decimal.IntText | trido/src/App.jsx:85 | `${i}` of an integer starts with "-" exactly when it is negative |
| Decimal.FourDigitValue | trido/src/App.jsx:115 | a four-digit year text denotes 1000 × first + 100 × second + 10 × third + fourth |
| Decimal.LeadingNumber | trido/src/App.jsx:82 | no number exactly when the text does not start with a digit; an all-digit text gives its value |
| Decimal.DigitsValueOfNatText | trido/src/App.jsx:85 | the printed digits of `n` read back as `n` |
| Decimal.ParseInt | trido/src/App.jsx:82 | `parseInt` is NaN exactly when no digit follows an optional sign, and is the digits' value for a digit string |
| Decimal.ParseIntOfNatText | trido/src/App.jsx:82 | `parseInt` of a printed non-negative number gives that number back |
| VehicleSelection.IndexOf | trido/src/App.jsx:55 | the position found holds `name` and no earlier entry does; -1 exactly when no entry holds it |
| VehicleSelection.Count | trido/src/App.jsx:55 | `vehicles[name] \|\| 0` is non-negative on a positive map, and 0 exactly when there is no entry |
| VehicleSelection.Max | trido/src/App.jsx:56 | `Math.max(a, b)` is one of its arguments and no smaller than either |
| VehicleSelection.CountAtIndex | trido/src/App.jsx:55 | the looked-up count is the one at the position `IndexOf` finds, 0 when none |
| VehicleSelection.RemoveAt | trido/src/App.jsx:60 | removing one entry keeps the names unique, leaves no entry with the removed name, and keeps every count positive |
| VehicleSelection.Delete | trido/src/App.jsx:60 | `delete` removes the name, keeps uniqueness and positivity, and leaves the other entries in order |
| VehicleSelection.Put | trido/src/App.jsx:62 | assignment overwrites in place or appends at the end, stores the value, and leaves the other entries in order |
| VehicleSelection.Adjust | trido/src/App.jsx:53-67 | new count = max(0, old + delta); the entry is absent at 0, keeps its position if it was there, goes last if new; other entries and their order are unchanged; the sparse invariant is preserved |
| VehicleSelection.AdjustKeepsOthers | trido/src/App.jsx:58-63 | every other vehicle keeps its count |
| VehicleSelection.ReaddMovesToEnd | trido/src/App.jsx:59-62 | a vehicle taken to zero and chosen again moves behind all others |
| VehicleSelection.Reduce | trido/src/App.jsx:95 | a `reduce` over no entries is its start value; over positive entries it grows by at least one per entry |
| VehicleSelection.ReduceIsSum | trido/src/App.jsx:95 | the `reduce` from `acc` equals `acc` plus the recursive sum |
| VehicleSelection.Total | trido/src/App.jsx:94-96 | the total equals the sum of the counts, is 0 for the empty map, and on a positive map is at least the entry count and 0 only when empty |
| VehicleSelection.SumOthers | trido/src/App.jsx:94-96 | the sum is the count of one name plus the sum of the other entries |
| VehicleSelection.SumOfReplaced | trido/src/App.jsx:94-96 | two maps that agree on every other vehicle have totals that differ only by the counts of `name` |
| VehicleSelection.TotalAfterAdjust | trido/src/App.jsx:53-67 | after an adjustment the total loses the old count of `name` and gains the clamped new one |
| VehicleSelection.Render | trido/src/App.jsx:91 | the rendering of an entry is never empty |
| VehicleSelection.Renders | trido/src/App.jsx:91 | the `map` gives one piece per entry, in entry order, each that entry's "count x name" |
| VehicleSelection.RenderExamples | trido/src/App.jsx:91 | the entries Activa 125: 2 and RE Classic 350: 1 render as "2 x Activa 125" and "1 x RE Classic 350" |
| VehicleSelection.SingleVehicle | trido/src/App.jsx:88-96 | a one-entry map's summary is that entry's rendering and its total is that entry's count |
| VehicleSelection.Summary | trido/src/App.jsx:88-92 | the summary is "" exactly for the empty map |
| VehicleSelection.SummaryAppend | trido/src/App.jsx:91 | an entry added last appears last, after ", " |
| VehicleSelection.SummaryOfNewVehicle | trido/src/App.jsx:88-92 | choosing a vehicle that had no entry appends its "count x name" to the summary |
| VehicleSelection.SummaryExample | trido/src/App.jsx:88-96 | {Activa 125: 2, RE Classic 350: 1} renders as "2 x Activa 125, 1 x RE Classic 350" with total 3 |
| VehicleSelection.AdjustExample | trido/src/App.jsx:53-67 | two "+" presses on one vehicle and one on another give [Activa 125: 2, RE Classic 350: 1] |
| SheetTime.Hour12 | trido/src/App.jsx:83 | for hours 0..23 the 12-hour hour lies in 1..12 and agrees with the 24-hour one modulo 12 |
| SheetTime.Meridiem | trido/src/App.jsx:84 | the suffix is "AM" or "PM", and "PM" exactly for hour 12 and above |
| SheetTime.HourField | trido/src/App.jsx:82-85 | an hours text that `parseInt` cannot read prints "NaN" |
| SheetTime.HourFieldReadsBack | trido/src/App.jsx:82-85 | for a readable hour 0..23 the printed hour reads back as its 12-hour value |
| SheetTime.MeridiemField | trido/src/App.jsx:82-84 | the suffix is "AM" or "PM", and "PM" exactly when the hours text reads as 12 or more (an unreadable hour gives "AM", since NaN >= 12 is false) |
| SheetTime.FormatTime | trido/src/App.jsx:79-86 | the result is "" exactly for "" |
| SheetTime.MinutesVerbatim | trido/src/App.jsx:81-85 | the minutes are copied verbatim, and hour and suffix depend only on the text before ':' |
| SheetTime.FormatValidTimeShape | trido/src/App.jsx:81-85 | on "HH:MM" the result is the 12-hour hour, ':', the minutes, a space and the suffix |
| SheetTime.FormatValidTime | trido/src/App.jsx:79-86 | hour 0 is "12:MM AM", 1–11 is "H:MM AM", 12 is "12:MM PM", 13–23 is "(H-12):MM PM", and there is never a leading zero |
| SheetTime.TwelveHourLayout | trido/src/App.jsx:83-85 | for hours 0..23 the printed 12-hour hour and suffix follow the four cases (0 → 12 AM, 1–11 AM, 12 → 12 PM, 13–23 minus 12 PM), never starting with "0" |
| Decimal.TwoDigitValue | trido/src/App.jsx:82 | a two-digit hours text denotes 10 × first + second |
| SheetTime.ToTwentyFourOfLayout | trido/src/App.jsx:85 | how the reader reads a string laid out as "H:MM XM" |
| SheetTime.ReadBackLayout | trido/src/App.jsx:79-86 | the reader turns the 12-hour layout of a valid "HH:MM" back into that "HH:MM" |
| SheetTime.TwoDigitsOfHour | trido/src/App.jsx:82 | the zero-padded hour of "HH:MM" is its "HH" |
| SheetTime.FormatTimeRoundTrip | trido/src/App.jsx:79-86 | reading back the sheet form of any "HH:MM" gives the same "HH:MM" |
| SheetTime.FormatMidnight | trido/src/App.jsx:79-86 | "00:00" becomes "12:00 AM" |
| SheetTime.FormatNoon | trido/src/App.jsx:79-86 | "12:00" becomes "12:00 PM" |
| SheetTime.FormatAfternoon | trido/src/App.jsx:79-86 | "13:30" becomes "1:30 PM" |
| BookingDate.ParseIsoDate | trido/src/App.jsx:115 | an accepted date has the "YYYY-MM-DD" layout, month 1..12 and day 1..31 |
| BookingDate.ArrivalAfterReturn | trido/src/App.jsx:115 | the check is false unless both dates parse, and false when both dates are equal |
| BookingDate.ArrivalAfterReturnOrder | trido/src/App.jsx:115 | the check never holds in both directions, and for two parsed different days it holds in exactly one |
| BookingDate.ArrivalAfterReturnIsStringOrder | trido/src/App.jsx:115 | for two parsed dates the check agrees with the plain string order of the texts: the arrival is after the return exactly when the return text sorts first |
| BookingDate.StringBeforeAppend | trido/src/App.jsx:115 | for heads of equal length, comparing joined strings compares the heads, then the tails when the heads are equal |
| BookingDate.DigitsOrder | trido/src/App.jsx:115 | for digit strings of equal length, string order is the order of their values, and equal texts are equal values |
| BookingDate.ParseIsoLayout | trido/src/App.jsx:115 | a "YYYY-MM-DD" text from digit groups is the day they denote when the month is 1..12 and the day 1..31, and invalid otherwise |
| BookingDate.IsoPieces | trido/src/App.jsx:115 | an accepted date text is its year, "-", its month, "-" and its day |
| BookingDate.ReturnBeforeArrivalExample | trido/src/App.jsx:115-118 | arrival 2025-06-10 with return 2025-06-05 is refused; the reverse is not |
| BookingDate.FormatDate | trido/src/App.jsx:73-77 | "" gives the blank value; any other date gives the runtime's rendering of exactly that date |
| Registration.WithField | trido/src/App.jsx:69-71 | `handleRegisterChange` sets the named field and keeps the other two |
| Registration.CompleteMeans | trido/src/App.jsx:154 | the profile passes `name && email && phone` exactly when none of the three fields is empty |
| Screens.ScreenFor | trido/src/App.jsx:191-220 | the confirmation shows exactly when its flag is set; registration shows exactly when its flag is set and the confirmation's is not |
| TridoApp.WithField | trido/src/App.jsx:49-51 | `handleFormChange` sets the named field, keeps the others and keeps the vehicles |
| TridoApp.BookingRecord | trido/src/App.jsx:123-136 | the posted total is the sum of the counts; on a sparse map the total is 0 exactly when the summary is ""; a complete draft gives a positive total and a non-empty summary; a time is blank only when its input is |
| TridoApp.CompleteMeans | trido/src/App.jsx:102-108 | `isFormValid` holds only when all six fields are filled and a vehicle is chosen; on a sparse map those conditions are also enough |
| TridoApp.Session.constructor | trido/src/App.jsx:6-23 | the screen mounts unregistered on the booking form with an empty draft and an empty profile |
| TridoApp.Session.HandleFormChange | trido/src/App.jsx:49-51 | only `formData` changes, to the draft with that field set |
| TridoApp.Session.HandleVehicleCountChange | trido/src/App.jsx:53-67 | only the draft's vehicles change, to `Adjust` of the old map; the sparse invariant holds afterwards |
| TridoApp.Session.HandleRegisterChange | trido/src/App.jsx:69-71 | only `registerData` changes, to the profile with that field set |
| TridoApp.Session.HandleBookRide | trido/src/App.jsx:98-148 | an incomplete form and then a bad date range fail, with no post and no state change; an unregistered visitor gets the registration screen and no post; a registered visitor's record is posted, and the confirmation shows only if the post succeeds; the draft and profile never change and `isLoading` ends false |
| TridoApp.Session.HandleRegister | trido/src/App.jsx:150-185 | an incomplete profile fails with no post and no state change; otherwise the profile and draft are posted; on success the visitor is registered and the confirmation replaces the registration screen; on failure only `isLoading` was touched and it ends false |
| TridoApp.Session.Back | trido/src/App.jsx:261-267 | only `showRegister` changes, to false, and the booking form shows |
| TridoApp.Session.BookAnotherRide | trido/src/App.jsx:198-214 | the draft becomes empty and the confirmation closes; the profile and the registration are kept |
| TridoApp.FirstDraftReady | trido/src/App.jsx:102-118 | the example draft passes both checks of `handleBookRide` |
| TridoApp.SecondDraftReady | trido/src/App.jsx:102-118 | the second example draft passes both checks |
| TridoApp.ExampleRecords | trido/src/App.jsx:123-136 | the example records carry the expected summaries, totals and 12-hour times |
| TridoApp.FirstRecord | trido/src/App.jsx:123-136 | the first example record has summary "2 x Activa 125, 1 x RE Classic 350", total 3, and times "12:00 PM" and "1:30 PM" |
| TridoApp.SecondRecord | trido/src/App.jsx:123-136 | the second example record has summary "1 x Ntorq" and total 1 |
| TridoApp.FillFirstDraft | trido/src/App.jsx:49-67 | six field changes and three "+" presses produce the first example draft |
| TridoApp.FillSecondDraft | trido/src/App.jsx:49-67 | six field changes and one "+" press produce the second example draft |
| TridoApp.BookAsNewVisitor | trido/src/App.jsx:120-179 | an unregistered visitor's booking posts nothing until registration, which then posts the profile with the draft |
| TridoApp.AskToRegister | trido/src/App.jsx:98-148 | booking the first draft while unregistered opens the registration screen, posts nothing and keeps the draft and the empty profile |
| TridoApp.RegisterRider | trido/src/App.jsx:150-185 | registering the example rider from that screen posts the rider's profile with the first draft and shows the confirmation |
| TridoApp.StartOver | trido/src/App.jsx:198-211 | after "Book Another Ride" the visitor is still registered and can fill in a new draft |
| TridoApp.BookRegistered | trido/src/App.jsx:120-139 | a registered visitor's booking is posted at once |
| TridoApp.FirstAndSecondBooking | trido/src/App.jsx:98-211 | the first booking posts nothing before registration, then one record with profile and draft; the second booking skips registration |
| SiteApp.WithField | src/App.jsx:33-35 | `handleFormChange` sets the named field, keeps the others and keeps the vehicles |
| SiteApp.BookingRecord | src/App.jsx:106-117 | the posted total is the sum of the counts; on a sparse map the total is 0 exactly when the summary is ""; a complete draft gives a positive total and a non-empty summary |
| SiteApp.CompleteMeans | src/App.jsx:86-91 | `isFormValid` holds only when destination, dates and times are filled and a vehicle is chosen; on a sparse map those conditions are also enough |
| SiteApp.Session.constructor | src/App.jsx:6-21 | the screen mounts unregistered on the booking form with an empty draft and profile |
| SiteApp.Session.HandleFormChange | src/App.jsx:33-35 | only `formData` changes, to the draft with that field set |
| SiteApp.Session.HandleVehicleCountChange | src/App.jsx:37-51 | only the draft's vehicles change, to `Adjust` of the old map; the sparse invariant holds afterwards |
| SiteApp.Session.HandleRegisterChange | src/App.jsx:53-55 | only `registerData` changes, to the profile with that field set |
| SiteApp.Session.HeaderRegister | src/App.jsx:244-249 | the registration screen opens with no check of the draft |
| SiteApp.Session.HandleBookRide | src/App.jsx:82-127 | an incomplete form (destination, dates, times, total 0) and then a bad date range fail with no post and no state change; an unregistered visitor gets the registration screen and no post; a registered visitor's record is posted, and the confirmation shows only on success |
| SiteApp.Session.HandleRegister | src/App.jsx:129-160 | only the profile is checked; any draft is posted with it; on success the visitor is registered and the confirmation shows; on failure nothing changes |
| SiteApp.Session.Back | src/App.jsx:224-229 | only `showRegister` changes, to false |
| SiteApp.Session.BookAnotherRide | src/App.jsx:173-189 | the draft becomes empty and the confirmation closes; the profile and the registration are kept |
| SiteApp.RegisterBeforeBooking | src/App.jsx:133-155 | from the header button, registering posts a booking with no destination, dates, times or vehicles, and total 0 |

## Left out

- `formatDateForSheet` output: `toLocaleDateString('en-GB')` depends on the JavaScript runtime's locale data and time zone, so `BookingDate.FormatDate` only records which date is rendered.
- BookingDate.ParseIsoDate: accepts only the "YYYY-MM-DD" form a date input produces, and accepts day 31 in every month. `new Date` also reads other forms and checks the calendar.
- Decimal.ParseInt: leading whitespace and a "0x" prefix are not modelled. Neither occurs in a time input's value.
- Decimal.ParseInt: JavaScript's `parseInt` returns a double, so a run of digits worth more than 2^53 is rounded. The model reads it exactly. A time input's hours are two digits.
- Decimal.IntText: a template literal prints numbers of 10^21 and above in exponent form ("1e+21"). The model always prints every digit. The printed hours and counts are small.
- Counts and deltas are unbounded integers, not IEEE doubles. The buttons only pass ±1, so fractional or non-finite values never occur.
- Entry order assumes no vehicle name looks like an array index (such as "1"). The engine would list such a key first. All the listed vehicle names are words.
- `handleFormChange` with a key outside the form's fields (such as `vehicles`) is not modelled. The inputs pass only the field names in `Field`.
- Network calls: the endpoint URLs, including the malformed one at src/App.jsx:105, and the request encoding are reduced to a success/failure argument. `alert` and `console.error` become the returned `Outcome`.
- TridoApp.Session.HandleBookRide: handlers are atomic, so the interval while `isLoading` is true during the post cannot be observed. The model states only that it is false again afterwards. The same applies to TridoApp.Session.HandleRegister.
- Input made during a pending post, and a second submission while a post is pending in src/App.jsx (which has no busy flag), are not modelled. Both depend on React's asynchronous state batching.
- The `min` attributes of the date inputs (trido/src/App.jsx:332,342) depend on the clock and are enforced by the browser.
- The disabled state of the "−" button for a count of 0 is not a precondition. The handler itself clamps the count.
- The body-overflow effect (trido/src/App.jsx:26-36), `scrollToAbout`, the JSX markup and the static location and vehicle lists are presentation.
