# MovieTicketFE in Dafny

A model of the booking rules inside the React front end MovieTicketFE. The front end lets a customer pick a movie, a cinema, a hall, a date and a showtime, then seats, and pay for a ticket. A header, a notification bell and a "My Tickets" page manage the stored tickets, and an admin dashboard edits movies, showtimes and bookings. Underneath the JSX these pages follow small rules, and this project states those rules in Dafny and proves them.

The project has one module per page or component, plus three shared modules:

- `Js` holds the JavaScript behaviour the pages rely on: truthiness and the `||` fallback, `trim`, `toLowerCase` on ASCII, `includes`, `split`/`join`, `parseInt`, `String(n)`, `reduce` sums, `filter`, `find`, `[...new Set(xs)]` and the stable `sort`.
- `Catalog` holds the static movie, cinema, hall, showtime and seat-map data, given as an input value.
- `Records` holds the booking record and the stored ticket shared by the selection pages, the payment page, the header and the tickets page.

The seat pickers are kept apart because their rules differ:

- `SelectSeat` is `src/pages/Select/Seat.jsx`. It caps the selection at eight and skips occupied seats.
- `SelectPage` is `src/pages/Select/Select.jsx`. It is an uncapped toggle.
- `SelectSeatsPage` is `src/pages/SelectSeats/index.jsx`. Its cap blocks every click.
- `SeatComponent` is `src/components/Seat.jsx`. Its cap blocks only additions, and it also builds the sorted seat grid.
- `SelectIndex` is `src/pages/Select/index.jsx`. It prices seats by comparing the row letter with `C`.
- `SelectTotal` and `TotalComponent` hold the summary panels.

The other pages each have their own module: `Register`, `DayPicker`, `CinemaPicker`, `MovieDetail`, `Banner`, `NotificationBell`, `Header`, `Payment`, `Tickets` and `AdminDashboard`.

Component state that handlers rewrite is a Dafny `class`. Each handler is a `method` whose `ensures` gives the new state as a function of the old one, and where the component keeps an invariant it is a `Valid()` predicate. Examples are the size bound and duplicate-freedom of a seat selection, the badge count of the bell, and the cinema, hall and showtime chain of the cinema picker. The pure parts are functions, and lemmas state what the pages promise about them.

Some inputs are parameters rather than part of the model:

- server responses, the stored lists of `localStorage`, and the static `data.json`;
- the clock (`Date.now()`, ISO timestamps) and date parsing;
- the outcome of a `window.confirm`.

A failed request is an `Option`/`None` input or an explicit flag.

## Model

| member | source | states |
|---|---|---|
| TotalComponent.SummaryOf | src/components/Total.jsx:4-31 | the count is the number of chosen seats; continuing is enabled exactly when at least one seat is chosen; an empty choice costs nothing |
| TotalComponent.TotalAmount | src/components/Total.jsx:4 | the sum of the chosen seats' prices: 0 for no seat, the price of a single seat |
| TotalComponent.AgreesWithPicker | src/components/Total.jsx:4 | the bar's total is the seat picker's own running total |
| TotalComponent.TotalAmountAppend | src/components/Total.jsx:4 | choosing more seats adds exactly their prices |
| TotalComponent.TotalAmountOrderIrrelevant | src/components/Total.jsx:4 | the total does not depend on the order the seats were chosen in |
| TotalComponent.TotalAmountBounds | src/components/Total.jsx:4 | with every price between two bounds, the total lies between the count times each bound |
| SelectTotal.RowOf | src/pages/Select/Total.jsx:8 | the row is the first character of the seat id, or empty for an empty id |
| SelectTotal.TypeOf | src/pages/Select/Total.jsx:22-26 | a seat is VIP exactly when there is a hall with a seat map whose VIP rows list the seat's row |
| SelectTotal.PriceOf | src/pages/Select/Total.jsx:6-11 | without a hall or a seat map a seat costs 0 |
| SelectTotal.PriceMatchesType | src/pages/Select/Total.jsx:6-26 | the price a summary line shows is the price of the type the same line shows |
| SelectTotal.Total | src/pages/Select/Total.jsx:13 | the sum of `getSeatPrice` over the selected seats: 0 for no seat, the seat's own price for one |
| SelectTotal.TotalAppend | src/pages/Select/Total.jsx:13 | adding seats adds their prices |
| SelectTotal.TotalOrderIrrelevant | src/pages/Select/Total.jsx:13 | the total does not depend on the order the seats were picked in |
| SelectTotal.TotalWithoutSeatMap | src/pages/Select/Total.jsx:7-13 | without a hall or seat map the total is 0 whatever is selected |
| SelectTotal.TotalByType | src/pages/Select/Total.jsx:9-13 | the total is the VIP price times the number of VIP seats plus the standard price times the rest |
| SelectTotal.SameRowSamePrice | src/pages/Select/Total.jsx:6-26 | two seats of the same row have the same type and price |
| SelectTotal.FooterOf | src/pages/Select/Total.jsx:56-84 | the prompt shows exactly for an empty selection; otherwise the total shown is the sum of the seat prices |
| DayPicker.ShowDates | src/pages/Select/Day.jsx:15-17 | a date is produced exactly when one of the hall's showtimes is at the chosen time on that date |
| DayPicker.HallsDates | src/pages/Select/Day.jsx:14-19 | a date is collected exactly when some hall of the cinema plays the chosen time on it |
| DayPicker.AvailableDates | src/pages/Select/Day.jsx:9-23 | an unknown cinema has no dates; otherwise a date is listed exactly when one of the cinema's halls plays the time on it |
| DayPicker.AvailableDatesSortedDistinct | src/pages/Select/Day.jsx:22 | the listed dates are in ascending string order and each appears once |
| DayPicker.FormatDay | src/pages/Select/Day.jsx:36-40 | the day shown for a date is `parseInt` of the text before its first `-`; an empty date gives NaN |
| DayPicker.FormatDayReadsDay | src/pages/Select/Day.jsx:36-40 | the day number shown for a `DD-MM` date built from a day is that day |
| DayPicker.DayState.HandleDateSelect | src/pages/Select/Day.jsx:31-34 | the stored date is the selected one and that date is reported to the parent |
| DayPicker.DayState.SelectDefault | src/pages/Select/Day.jsx:25-29 | with dates and no selection the first date is selected and reported; otherwise nothing changes |
| DayPicker.DefaultIsEarliest | src/pages/Select/Day.jsx:22-29 | the date selected by default is the earliest listed date |
| Banner.JsRem | src/pages/Home/Banner.jsx:17-38 | JavaScript's remainder: equal to the mathematical remainder for a non-negative dividend, never positive for a negative one, and always strictly between `-n` and `n` |
| Banner.DotClick | src/pages/Home/Banner.jsx:112-115 | a dot moves to its own slide, with direction 1 exactly when it lies after the current slide and -1 otherwise |
| Banner.Step | src/pages/Home/Banner.jsx:15-18 | the next index, `(i + 1) % n`: a slide index whenever the current index is at least -1, never positive below that |
| Banner.StepInRange | src/pages/Home/Banner.jsx:15-18 | the timer moves to the next slide and wraps from the last to the first, never leaving the slides |
| Banner.PaginateIndex | src/pages/Home/Banner.jsx:36-39 | the index `d` slides on, `(i + d + n) % n`: a slide index whenever `i + d + n` is not negative, never positive otherwise |
| Banner.PaginateInRange | src/pages/Home/Banner.jsx:36-39 | the right arrow moves one slide on and the left arrow one slide back, wrapping at both ends |
| Banner.PaginateForwardIsStep | src/pages/Home/Banner.jsx:17-38 | the right arrow does what the timer does |
| Banner.PaginateUndo | src/pages/Home/Banner.jsx:36-39 | the left arrow undoes the right arrow and the other way round |
| Banner.StepsAdvance | src/pages/Home/Banner.jsx:15-18 | within one round, k timer ticks move k slides on, wrapping past the last |
| Banner.FullRoundReturns | src/pages/Home/Banner.jsx:15-18 | as many ticks as there are movies return to the starting slide |
| Banner.Carousel.Tick | src/pages/Home/Banner.jsx:12-21 | with movies the index moves by one timer step and the direction becomes 1; without movies no interval runs and nothing changes; the slide stays valid |
| Banner.Carousel.Paginate | src/pages/Home/Banner.jsx:36-39 | the index is the wrapped one for the direction, which is stored; the slide stays valid |
| Banner.Carousel.ClickDot | src/pages/Home/Banner.jsx:109-117 | the dot's slide is shown, with the direction of the dot click; the slide stays valid |
| NotificationBell.UnreadCount | src/components/NotificationBell.jsx:54 | the badge count: at most the number of notifications, and 0 exactly when every notification is read |
| NotificationBell.MarkRead | src/components/NotificationBell.jsx:64-66 | same length; each notification with the clicked id is marked read and every other one is unchanged |
| NotificationBell.MarkReadEffect | src/components/NotificationBell.jsx:64-66 | afterwards every notification carrying the id is read, the others are untouched, and ids and types keep their places |
| NotificationBell.MarkReadIdempotent | src/components/NotificationBell.jsx:63-69 | a second click on the same notification changes nothing |
| NotificationBell.MarkReadUnreadCount | src/components/NotificationBell.jsx:54-69 | the unread count drops by exactly the number of unread notifications carrying the clicked id |
| NotificationBell.UnreadCountNeverIncreases | src/components/NotificationBell.jsx:63-87 | a click never raises the badge, and clicking an unread notification lowers it |
| NotificationBell.Destination | src/components/NotificationBell.jsx:71-73 | a click leads to the ticket page of the notification exactly when its type is `ticket`, and nowhere otherwise |
| NotificationBell.Bell.Load | src/components/NotificationBell.jsx:51-61 | the list is the stored one and the badge counts its unread entries |
| NotificationBell.Bell.ToggleOpen | src/components/NotificationBell.jsx:83 | the panel opens or closes and nothing else changes |
| NotificationBell.Bell.Click | src/components/NotificationBell.jsx:63-76 | the list and its stored copy are the marked list, the badge counts its unread entries, the navigation is the notification's destination, and the panel closes |
| Tickets.NewestFirst | src/pages/Tickets/Tickets.jsx:101-103 | the sorted list holds the stored tickets, each as often as before |
| Tickets.NewestFirstSorted | src/pages/Tickets/Tickets.jsx:100-103 | the list is ordered by purchase instant, newest first |
| Tickets.NewestFirstHeadIsNewest | src/pages/Tickets/Tickets.jsx:100-103 | the first ticket shown was bought no earlier than any stored ticket |
| Tickets.DisplayYear | src/pages/Tickets/Tickets.jsx:11-15 | the year shown is never before 2024: an earlier year becomes 2024 and any other is kept |
| Tickets.SeatCountLabel | src/pages/Tickets/Tickets.jsx:18-55 | the count is the number of seats, with the word `seats` exactly for more than one and `seat` otherwise |
| Tickets.ViewOf | src/pages/Tickets/Tickets.jsx:117-176 | the spinner shows exactly while loading; the empty state exactly when loaded with no tickets; otherwise all tickets are listed |
| Tickets.TicketsPage.FetchTickets | src/pages/Tickets/Tickets.jsx:94-115 | readable storage gives the tickets newest first; unreadable storage sets the failure message and keeps the list; loading ends either way |
| Payment.MakeTicket | src/pages/Payment/Payment.jsx:66-79 | the ticket id is the decimal text of the clock reading; the ticket carries the chosen method, the status `paid` and the purchase instant |
| Payment.TicketKeepsBooking | src/pages/Payment/Payment.jsx:66-79 | every booking field reaches the stored ticket unchanged |
| Payment.TicketIdsDistinct | src/pages/Payment/Payment.jsx:67-85 | payments at different clock readings give tickets with different ids, so different ticket pages |
| Payment.PayDisabled | src/pages/Payment/Payment.jsx:181 | the pay button is disabled while a payment is being processed and while no method is chosen |
| Payment.PayEnabledCases | src/pages/Payment/Payment.jsx:181 | the pay button is usable exactly when no payment is being processed and a non-empty method is chosen |
| Payment.PaymentState.constructor | src/pages/Payment/Payment.jsx:30-34 | no method chosen, not processing, no error |
| Payment.PaymentState.SelectMethod | src/pages/Payment/Payment.jsx:144 | the clicked card's method becomes the chosen one; storage and the error stay |
| Payment.PaymentState.HandlePayment | src/pages/Payment/Payment.jsx:52-94 | without a method only the error is set; with the button usable the method error never appears; a failed payment sets the failure message and leaves storage alone; a successful one appends exactly the new ticket to storage and leads to that ticket's page; processing ends in both paying cases |
| Header.Field | src/pages/Home/Header.jsx:109-111 | a field as searched: the lowercased text, as long as the field, empty when the field is missing, and unchanged by lowercasing again |
| Header.Matches | src/pages/Home/Header.jsx:109-117 | a movie matches when the lowercased query occurs in its lowercased title, genre or description; the empty query matches every movie, and so does its own title in any case |
| Header.Matching | src/pages/Home/Header.jsx:101-118 | a movie is kept exactly when it is in the catalogue and the lowercased query occurs in its lowercased title, genre or description |
| Header.MatchingKeepsOrder | src/pages/Home/Header.jsx:101-118 | the matches keep catalogue order: matching a catalogue extended by more movies gives its own matches followed by the new ones' |
| Header.SearchShowsEarliestMatches | src/pages/Home/Header.jsx:101-119 | the five results shown are the first five matches in catalogue order |
| Header.Search | src/pages/Home/Header.jsx:87-122 | a blank query gives no results; otherwise a prefix of the matches, at most five, each a matching catalogue movie; with at most five matches all of them, in catalogue order and with repeated catalogue entries shown twice |
| Header.SearchFindsAllFewMatches | src/pages/Home/Header.jsx:101-119 | with at most five matches every matching movie is shown |
| Header.SearchCapsAtFive | src/pages/Home/Header.jsx:119 | with more than five matches exactly five are shown |
| Header.MissingFieldIsEmpty | src/pages/Home/Header.jsx:109-111 | a missing field reads as empty text, which only the empty query matches |
| Header.MatchesIgnoresQueryCase | src/pages/Home/Header.jsx:109-117 | the case of the query does not change which movies match |
| Header.GetMovieData | src/pages/Home/Header.jsx:82-84 | a movie is found exactly when one has the id, and the one found has it |
| Header.DeleteTicket | src/pages/Home/Header.jsx:139-140 | a ticket stays exactly when it was stored and its id is not the deleted one |
| Header.DeleteAbsent | src/pages/Home/Header.jsx:139-140 | deleting an id no ticket has changes nothing |
| Header.DeleteIdempotent | src/pages/Home/Header.jsx:139-140 | deleting twice is deleting once |
| Header.DeleteKeepsOrder | src/pages/Home/Header.jsx:139-140 | the remaining tickets keep their order |
| Header.Badge | src/pages/Home/Header.jsx:325-329 | the badge is hidden exactly when there are no tickets and otherwise shows their number |
| Header.HeaderState.LoadTickets | src/pages/Home/Header.jsx:71-79 | the list is the stored one |
| Header.HeaderState.HandleDeleteTicket | src/pages/Home/Header.jsx:139-143 | the list loses the ticket and storage holds the same list |
| Header.HeaderState.SearchFires | src/pages/Home/Header.jsx:87-125 | after the debounce the results are those of the current query |
| Header.HeaderState.HandleTicketClick | src/pages/Home/Header.jsx:127-130 | the ticket's own page is the target and the list closes |
| Header.HeaderState.HandleMovieClick | src/pages/Home/Header.jsx:132-137 | the movie's page is the target; query, results and search box are cleared |
| Header.HeaderState.constructor | src/pages/Home/Header.jsx:61-65 | no tickets loaded, empty query and results, ticket list and search box closed |
| Header.HeaderState.SetQuery | src/pages/Home/Header.jsx:272 | the typed text becomes the query |
| Register.Get | src/pages/Auth/Register.jsx:132-227 | reference definition: the form value an input named `field` displays |
| Register.Update | src/pages/Auth/Register.jsx:32-36 | the named field takes the typed value and every other field keeps its value |
| Register.UpdateTwice | src/pages/Auth/Register.jsx:32-36 | typing into a field twice keeps only the second value |
| Register.UpdateSame | src/pages/Auth/Register.jsx:32-36 | writing back a field's own value leaves the form as it was |
| Register.Utf16Length | src/pages/Auth/Register.jsx:51 | the length the password check reads lies between the number of characters and twice that |
| Register.Validate | src/pages/Auth/Register.jsx:44-60 | mismatched passwords are reported first; a too-short password exactly when they match; a bad phone exactly when both earlier checks pass; no error exactly when all three pass |
| Register.PasswordLengthCountsCodeUnits | src/pages/Auth/Register.jsx:51 | six plain letters pass the length check, and so do three emoji |
| Register.MakeRegisterData | src/pages/Auth/Register.jsx:63-69 | name, email and phone are sent trimmed, the password as typed |
| Register.ValidPhone | src/pages/Auth/Register.jsx:57 | reference definition of `/^[0-9]{10}$/`: exactly ten characters, each a decimal digit |
| Register.ValidPhoneUnchangedByTrim | src/pages/Auth/Register.jsx:57-68 | a phone number that passed the check is sent exactly as typed |
| Register.AnswerError | src/pages/Auth/Register.jsx:73-81 | no error on success; on refusal or a thrown error the service's message, or the fallback when it has none, and never an empty message |
| Register.RegisterForm.constructor | src/pages/Auth/Register.jsx:10-19 | empty fields, no error, not loading |
| Register.RegisterForm.HandleChange | src/pages/Auth/Register.jsx:32-38 | one field changes as in Update and the error is cleared |
| Register.RegisterForm.HandleSubmit | src/pages/Auth/Register.jsx:40-73 | nothing is sent exactly when a check fails, and then its message is shown; otherwise the trimmed data is sent, the error is cleared and loading starts |
| Register.RegisterForm.Settle | src/pages/Auth/Register.jsx:73-84 | the answer's error is shown unless it succeeded, and loading ends |
| SelectIndex.IsPremium | src/pages/Select/index.jsx:45-46 | a seat is premium when its row letter compares at most `C`: one starting below `C` is premium and one starting after `C` is not |
| SelectIndex.PremiumByFirstChar | src/pages/Select/index.jsx:45-46 | a seat is priced premium exactly when its id is empty or starts with a character up to `C` |
| SelectIndex.CalculateTotal | src/pages/Select/index.jsx:43-49 | the sum of the seats' premium or standard prices: 0 for no seat, and for one seat the premium price exactly when it is premium |
| SelectIndex.CalculateTotalByClass | src/pages/Select/index.jsx:43-49 | the total is the premium price times the number of premium seats plus the standard price times the rest |
| SelectIndex.CalculateTotalOrderIrrelevant | src/pages/Select/index.jsx:43-49 | the total does not depend on the order in which the seats were picked |
| SelectIndex.NumericIdFound | src/pages/Select/index.jsx:20 | a movie with a numeric id is found from the route's decimal spelling of it |
| SelectIndex.TrailingLettersStillFind | src/pages/Select/index.jsx:20 | a route id with trailing letters (`7abc`) still finds the movie numbered 7 |
| SelectIndex.ViewOf | src/pages/Select/index.jsx:61-130 | missing id, cinema or time shows the notice first; then loading; the page itself exactly when the data is there, loading is over and the movie is found |
| SelectIndex.ConfirmUrl | src/pages/Select/index.jsx:57-59 | the confirmation leads to `/payment/` with the movie id and then the query string |
| SelectIndex.ConfirmUrlRecoversBooking | src/pages/Select/index.jsx:57-59 | when no value holds `&` and no seat holds `,`, the query splits into exactly the five named pieces, the seat list splits back into the seats in order, and the total reads back as itself |
| SelectIndex.ConfirmPieces | src/pages/Select/index.jsx:58 | the query holds the pieces `seats=`, `cinema=`, `time=`, `date=`, `total=` in that order |
| SelectIndex.SelectIndexState.constructor | src/pages/Select/index.jsx:14-17 | no seats, dialog closed, no date, loading |
| SelectIndex.SelectIndexState.LoadingTimerFires | src/pages/Select/index.jsx:34-41 | loading ends and nothing else changes |
| SelectIndex.SelectIndexState.ReceiveSeats | src/pages/Select/index.jsx:162-163 | the seat picker's selection becomes the page's and nothing else changes |
| SelectIndex.SelectIndexState.ReceiveDate | src/pages/Select/index.jsx:156-160 | the picked date becomes the page's and nothing else changes |
| SelectIndex.SelectIndexState.Proceed | src/pages/Select/index.jsx:51-55 | the dialog opens exactly when seats are selected, otherwise stays as it was |
| SelectIndex.SelectIndexState.Cancel | src/pages/Select/index.jsx:245 | the dialog closes and nothing else changes |
| SelectIndex.SelectIndexState.Confirm | src/pages/Select/index.jsx:57-59 | the target is the payment URL of the current seats, the chosen date or else today's, and their premium/standard total |
| SelectSeat.LoadSeatConfig | src/pages/Select/Seat.jsx:17-53 | a missing or incomplete prop gives exactly the "missing hall information" error; an unknown movie gives "Movie not found"; every failure is one of the five messages; a seat map comes only from a catalogue movie, cinema and hall with the prop's ids whose hall lists the showtime |
| SelectSeat.LoadSeatConfigFindsHall | src/pages/Select/Seat.jsx:23-46 | when the first movie, cinema and hall with the prop's ids exist and the hall lists the showtime, the grid is that hall's seat map |
| SelectSeat.LoadSeatConfigMissingCinema | src/pages/Select/Seat.jsx:23-31 | a catalogue movie that does not show at the prop's cinema is reported as "Cinema not found" |
| SelectSeat.LoadSeatConfigMissingHall | src/pages/Select/Seat.jsx:33-36 | with the movie and cinema found, a hall id the cinema does not have is reported as "Hall not found" |
| SelectSeat.LoadSeatConfigMissingShowtime | src/pages/Select/Seat.jsx:38-44 | with movie, cinema and hall found, a hall that lists no showtime at the prop's date and time is reported as "Selected showtime not available" |
| SelectSeat.BookedSeats | src/pages/Select/Seat.jsx:76-85 | a failed request gives no booked seats; otherwise the seat numbers of the booked records, one per record and in response order, so every booked record's seat is there and nothing else is |
| SelectSeat.BookedSeatsAppend | src/pages/Select/Seat.jsx:76-78 | the booked seats of a response are those of its first part followed by those of the rest, so response order is kept |
| SelectSeat.Click | src/pages/Select/Seat.jsx:102-120 | a booked seat ignores the click; a selected seat is released and only it; a free seat is appended while fewer than eight are held; a ninth is refused with the limit error and not reported |
| SelectSeat.ClickReleasesThatPosition | src/pages/Select/Seat.jsx:105-108 | clicking a held seat removes exactly its position from the selection; the other seats keep their order |
| SelectSeat.ClickKeepsSelectionValid | src/pages/Select/Seat.jsx:102-120 | a selection without duplicates and of at most eight seats stays so, and a click never adds a booked seat |
| SelectSeat.ReleaseShortens | src/pages/Select/Seat.jsx:108 | releasing a held seat shortens the selection by exactly one |
| SelectSeat.ClickTwiceRestores | src/pages/Select/Seat.jsx:102-120 | clicking a free seat twice gives back the selection the user started from |
| SelectSeat.StatusOf | src/pages/Select/Seat.jsx:122-126 | booked wins over selected; available exactly when neither |
| SelectSeat.GridSeatType | src/pages/Select/Seat.jsx:128-131 | a row is VIP exactly when a seat map is loaded and lists it as a VIP row |
| SelectSeat.GridSeatPrice | src/pages/Select/Seat.jsx:133-137 | no price before a seat map is loaded; then the VIP or standard price of the row |
| SelectSeat.RowSeatIds | src/pages/Select/Seat.jsx:221-222 | one id per column |
| SelectSeat.RowSeatIdsParse | src/pages/Select/Seat.jsx:221-247 | each id starts with the row label and the rest reads back as its column number |
| SelectSeat.RowSeatIdsDistinct | src/pages/Select/Seat.jsx:221-228 | no two seats of a row share an id, so the React keys are unique |
| SelectSeat.ViewOf | src/pages/Select/Seat.jsx:139-200 | the spinner exactly while loading; then an error's message; then "No seat configuration available" without a seat map; the grid exactly when loaded, without error and with a seat map |
| SelectSeat.SeatGrid.constructor | src/pages/Select/Seat.jsx:8-13 | nothing selected or booked, loading, no error, no seat map |
| SelectSeat.SeatGrid.LoadConfig | src/pages/Select/Seat.jsx:17-53 | loading ends; a found seat map is stored with no error; a failure stores its message; the selection and the booked seats are kept |
| SelectSeat.SeatGrid.ReceiveHall | src/pages/Select/Seat.jsx:88-92 | a new prop reloads the seat map for it: loading ends, on success the map is the new one and the error is cleared, on failure the error is that failure and the old map stays; the selection, the occupied seats and the reported selection are kept |
| SelectSeat.SeatGrid.FetchOccupied | src/pages/Select/Seat.jsx:56-86 | without booking information the error is set and loading ends; otherwise the booked seats are those of the answer, none when the request failed; the missing-information error stops the polling, and a poll with booking information neither starts nor stops it |
| SelectSeat.SeatGrid.ClickSeat | src/pages/Select/Seat.jsx:102-120 | the selection is the click's outcome, a refused ninth seat sets the limit error, and every accepted selection is reported once, in order; the selection stays duplicate-free and at most eight long |
| SelectSeat.LimitErrorHidesGrid | src/pages/Select/Seat.jsx:112-172 | refusing a ninth seat replaces the grid by the error view with the limit message |
| SelectSeatsPage.Release | src/pages/SelectSeats/index.jsx:58 | afterwards the seat is not selected, and exactly the entries that are other seats remain |
| SelectSeatsPage.ReleaseRemovesThatEntry | src/pages/SelectSeats/index.jsx:57-58 | releasing a seat held once removes exactly its entry; the other seats keep their order |
| SelectSeatsPage.ClickAsWritten | src/pages/SelectSeats/index.jsx:49-62 | as written: a seat that is not available, or any seat once eight are held, changes nothing; below eight a held seat is released and any other is appended tagged with its row |
| SelectSeatsPage.AsWrittenCannotReleaseAtLimit | src/pages/SelectSeats/index.jsx:49-62 | as written, with eight seats selected a click on one of them leaves the selection unchanged, so the seat stays selected |
| SelectSeatsPage.Click | src/pages/SelectSeats/index.jsx:49-62 | a seat that is not available ignores the click; a selected one is released; a new one is appended, tagged with its row, while fewer than eight are held; at the limit a new seat is refused |
| SelectSeatsPage.ClickReleasesAtLimit | src/pages/SelectSeats/index.jsx:50-58 | with the corrected click a selected seat can be released even at the limit |
| SelectSeatsPage.ClickAgreesBelowLimit | src/pages/SelectSeats/index.jsx:49-62 | below the limit the corrected click and the click as written agree |
| SelectSeatsPage.ReleaseKeepsValid | src/pages/SelectSeats/index.jsx:58 | releasing keeps the selection free of repeated seats, all available and at most eight, and never lengthens it |
| SelectSeatsPage.ClickKeepsValid | src/pages/SelectSeats/index.jsx:49-62 | the corrected click keeps the selection free of repeated seats, all available and at most eight |
| SelectSeatsPage.ClickTwiceRestores | src/pages/SelectSeats/index.jsx:55-61 | clicking a free available seat twice gives back the original selection |
| SelectSeatsPage.TotalAmount | src/pages/SelectSeats/index.jsx:111 | the sum of the selected seats' prices: 0 for no seat, the price of a single seat |
| SelectSeatsPage.TotalAmountAfterAdd | src/pages/SelectSeats/index.jsx:74-111 | adding a seat adds exactly its price to the total |
| SelectSeatsPage.TotalAmountOrderIrrelevant | src/pages/SelectSeats/index.jsx:74-111 | the total does not depend on the order in which the seats were picked |
| SelectSeatsPage.SelectSeatsState.constructor | src/pages/SelectSeats/index.jsx:27-32 | no showtime, no seats, loading, not booking |
| SelectSeatsPage.SelectSeatsState.ShowtimeFetched | src/pages/SelectSeats/index.jsx:34-47 | a successful fetch stores the record, a failed one keeps the old; loading ends either way and the selection is kept |
| SelectSeatsPage.SelectSeatsState.ClickSeat | src/pages/SelectSeats/index.jsx:49-62 | the selection is that of the corrected click and stays valid; nothing else changes |
| SelectSeatsPage.SelectSeatsState.StartBooking | src/pages/SelectSeats/index.jsx:64-75 | no request exactly when nothing is selected, so a usable Book button always sends one and no request means the button was disabled; otherwise booking starts and the body carries the showtime, the seats and the sum of their prices, which is the total shown |
| SelectSeatsPage.SelectSeatsState.BookingFailed | src/pages/SelectSeats/index.jsx:78-81 | a failed request ends booking and keeps the selection |
| SelectSeatsPage.PaymentPath | src/pages/SelectSeats/index.jsx:77 | the path is `/payment/` followed by the created booking's id and nothing else |
| CinemaPicker.SelectUrl | src/pages/MovieDetail/Cinema.jsx:13-23 | the continue button leads to `/select/` with the route id and then the query of the choice |
| CinemaPicker.SelectUrlCarriesChoice | src/pages/MovieDetail/Cinema.jsx:13-23 | when no value holds `&`, the URL is `/select/` with the route id, then `?`, and its query splits back into the chosen cinema id, hall id, time and date, in that order |
| CinemaPicker.SelectPieces | src/pages/MovieDetail/Cinema.jsx:15-20 | the query holds the pieces `cinema=`, `hall=`, `time=`, `date=` in that order |
| CinemaPicker.PanelOf | src/pages/MovieDetail/Cinema.jsx:25-46 | the Coming Soon notice exactly when the movie has no cinemas; otherwise the list of its cinemas |
| CinemaPicker.CinemaState.constructor | src/pages/MovieDetail/Cinema.jsx:9-11 | nothing chosen |
| CinemaPicker.CinemaState.ClickCinema | src/pages/MovieDetail/Cinema.jsx:64-68 | the clicked cinema is chosen and the hall and showtime are cleared, also when it was already chosen |
| CinemaPicker.CinemaState.ClickHall | src/pages/MovieDetail/Cinema.jsx:86-94 | clicking the chosen hall releases it, any other hall of the chosen cinema is chosen; the showtime is cleared and the cinema kept |
| CinemaPicker.CinemaState.ClickShowtime | src/pages/MovieDetail/Cinema.jsx:124-130 | the clicked showtime of the chosen hall is chosen; cinema and hall are kept |
| CinemaPicker.CinemaState.Continue | src/pages/MovieDetail/Cinema.jsx:13-23 | a seat page URL exactly when cinema, hall and showtime are all chosen, and then the one for that cinema, hall and showtime |
| SeatComponent.FetchSeatData | src/components/Seat.jsx:15-42 | data only from a successful answer, and then a cinema of the answer with the requested id and a showtime of it with the requested id; a failed request gives the thrown message or "Không thể tải thông tin ghế. Vui lòng thử lại"; a refused answer gives its own message or the fallback; an answer without the cinema gives the "cinema not found" message; no error message is empty |
| SeatComponent.FetchSeatDataFindsShowtime | src/components/Seat.jsx:20-28 | the data shown are the first cinema with the requested id and, in it, the first showtime with the requested id |
| SeatComponent.FetchSeatDataMissingShowtime | src/components/Seat.jsx:20-31 | when the first cinema with the id has no showtime with the id, the message is "Không tìm thấy thông tin suất chiếu", whatever later cinemas hold |
| SeatComponent.MakeSeat | src/components/Seat.jsx:103-110 | the entry keeps the id, type, price and status, and its row is the id's first character |
| SeatComponent.RowEntries | src/components/Seat.jsx:101-103 | at most one entry per listed id |
| SeatComponent.RowEntriesMembers | src/components/Seat.jsx:101-110 | an entry exists exactly for each listed id starting with the row, with the category's type, price and status |
| SeatComponent.Entries | src/components/Seat.jsx:101-110 | the loop builds the entries of the ids starting with the row, in list order |
| SeatComponent.PushRow | src/components/Seat.jsx:100-124 | one row adds its free seats, then its booked ones, after those already collected |
| SeatComponent.CollectSeats | src/components/Seat.jsx:96-151 | the two loops collect the standard rows, then the VIP rows, each row's free seats before its booked ones |
| SeatComponent.SeatLeqOrder | src/components/Seat.jsx:153-156 | the comparator orders every pair of seats and is transitive |
| SeatComponent.GetAllSeats | src/components/Seat.jsx:96-157 | the grid holds exactly the collected seats, each as often, ordered by row and then number |
| SeatComponent.CategoryHasRowSeat | src/components/Seat.jsx:100-151 | every free or booked id starting with a listed row is in the grid, with the category's type, price and status |
| SeatComponent.CategorySeatOrigin | src/components/Seat.jsx:100-151 | every grid entry comes from its category's free or booked list, with that category's type and price, and starts with one of its rows |
| SeatComponent.RowGroupAppend | src/components/Seat.jsx:160-166 | a seat pushed onto the grid joins its own row's group only |
| SeatComponent.GroupByRow | src/components/Seat.jsx:160-197 | the rows shown are the distinct rows in first-seen order, each with exactly its seats in grid order |
| SeatComponent.Click | src/components/Seat.jsx:49-64 | a selected seat is released and only it; a new seat is appended with its type and price while fewer than eight are held; otherwise the alert is shown and nothing changes |
| SeatComponent.ClickReleasesThatPosition | src/components/Seat.jsx:49-53 | clicking a held seat removes exactly its entry; the other seats keep their order |
| SeatComponent.ReleaseKeepsDistinctIds | src/components/Seat.jsx:54 | releasing keeps the ids distinct and never lengthens the selection |
| SeatComponent.ClickKeepsValid | src/components/Seat.jsx:49-64 | a click keeps the ids distinct and the selection at most eight long |
| SeatComponent.ReleaseAtLimit | src/components/Seat.jsx:50-54 | with eight seats held, a held seat can still be released, without the alert |
| SeatComponent.ClickTwiceRestores | src/components/Seat.jsx:49-64 | clicking a free seat twice gives back the original selection |
| SeatComponent.TotalPrice | src/components/Seat.jsx:66-69 | the sum of the selected seats' prices: 0 for no seat, the price of a single seat |
| SeatComponent.TotalPriceAfterAdd | src/components/Seat.jsx:66-69 | adding a seat adds exactly its price to the total |
| SeatComponent.ViewOf | src/components/Seat.jsx:71-91 | the loading view exactly while loading; otherwise a non-empty error is shown as its message, then the "no seat data" view without data; the grid exactly when loaded, without error and with data |
| SeatComponent.SeatPicker.constructor | src/components/Seat.jsx:6-10 | nothing selected, no data, loading, no error, total zero |
| SeatComponent.SeatPicker.LoadSeats | src/components/Seat.jsx:14-47 | without all three ids nothing happens; otherwise loading ends with the found data or the fetch's message; the selection and total are kept |
| SeatComponent.SeatPicker.ClickSeat | src/components/Seat.jsx:49-69 | a booked seat does nothing; a free one gives the click's selection and alert; the total stays the sum of the selected prices and the selection stays valid |
| SelectPage.Toggle | src/pages/Select/Select.jsx:43-50 | a selected seat is removed and only it; any other seat is appended at the end |
| SelectPage.ToggleRemovesThatPosition | src/pages/Select/Select.jsx:45-47 | toggling a held seat removes exactly its position; the other seats keep their order |
| SelectPage.ToggleTwiceFromFree | src/pages/Select/Select.jsx:43-50 | toggling a free seat twice gives back the original selection |
| SelectPage.ToggleTwiceFromSelected | src/pages/Select/Select.jsx:43-50 | toggling a selected seat twice keeps the same seats but moves that seat to the end |
| SelectPage.ToggleKeepsDistinct | src/pages/Select/Select.jsx:43-50 | the selection never holds a seat twice, and a new seat always lengthens it: this page sets no limit |
| SelectPage.ComputeTotalPrice | src/pages/Select/Select.jsx:52-64 | the loop's price is zero without a hall or seats, otherwise the sum of each seat's VIP or standard price |
| SelectPage.PageTotalAgreesWithSummary | src/pages/Select/Select.jsx:52-64 | the page's total equals the one the order summary computes for the same hall and seats |
| SelectPage.ViewOf | src/pages/Select/Select.jsx:85-94 | the page is shown exactly when movie, cinema and hall are all found; otherwise the loading text |
| SelectPage.LookupRoute | src/pages/Select/Select.jsx:25-41 | the movie is the first with the route id; a cinema is found only within that movie and carries the requested id; a hall only within that cinema and carries its id; when one is not found, none of its candidates has the id |
| SelectPage.SelectPageState.constructor | src/pages/Select/Select.jsx:13-23 | nothing selected or found, total zero |
| SelectPage.SelectPageState.ResolveRoute | src/pages/Select/Select.jsx:25-64 | each of movie, cinema and hall is replaced only by what the lookup found, and the total is recomputed for the hall |
| SelectPage.SelectPageState.ClickSeat | src/pages/Select/Select.jsx:43-64 | the selection is toggled at the seat `row` followed by its column, and the total follows |
| SelectPage.SelectPageState.Proceed | src/pages/Select/Select.jsx:66-83 | no booking exactly for an empty selection; otherwise one with the movie's id and title, the cinema's and hall's names, the route's date and time, the seats and their total |
| MovieDetail.FindMovie | src/pages/MovieDetail/MovieDetail.jsx:15 | a movie is found exactly when one has the route id, and the one found has it |
| MovieDetail.DefaultDate | src/pages/MovieDetail/MovieDetail.jsx:28-36 | a default date exists exactly when the first cinema has a first hall with a first showtime, and it is that showtime's date |
| MovieDetail.DateButtons | src/pages/MovieDetail/MovieDetail.jsx:251-254 | no buttons without a first hall of the first cinema; otherwise a button for exactly the dates of that hall's showtimes |
| MovieDetail.DateButtonsSortedDistinct | src/pages/MovieDetail/MovieDetail.jsx:254 | the buttons are in ascending order and each date appears once |
| MovieDetail.DefaultDateHasButton | src/pages/MovieDetail/MovieDetail.jsx:28-36 | the date selected by default always has its button |
| MovieDetail.HallShowtimes | src/pages/MovieDetail/MovieDetail.jsx:286-287 | exactly the hall's showtimes on the selected date are listed |
| MovieDetail.HallShowtimesKeepsOrder | src/pages/MovieDetail/MovieDetail.jsx:286-287 | the listed showtimes keep the hall's order: a hall whose showtimes are one list then another lists the first list's matches, then the second's |
| MovieDetail.HallShowtimesIdempotent | src/pages/MovieDetail/MovieDetail.jsx:286-287 | filtering a second time by the same date removes nothing more |
| MovieDetail.DefaultDateShowsFirstShowtime | src/pages/MovieDetail/MovieDetail.jsx:28-36 | on the default date the first hall of the first cinema lists its first showtime |
| MovieDetail.ShowtimeUrl | src/pages/MovieDetail/MovieDetail.jsx:294 | a showtime button leads to `/select/` with the movie id, then the cinema id and then the hall |
| MovieDetail.ShowtimeUrlAgreesWithPanel | src/pages/MovieDetail/MovieDetail.jsx:294 | the showtime button leads to the same seat page URL as the cinema panel's continue button for that showtime |
| MovieDetail.ViewOf | src/pages/MovieDetail/MovieDetail.jsx:41-70 | the spinner exactly while loading; "not found" exactly when loaded without a movie; otherwise the movie's details |
| MovieDetail.MovieDetailState.constructor | src/pages/MovieDetail/MovieDetail.jsx:10-15 | the movie is the one with the route id, loading, no date selected |
| MovieDetail.MovieDetailState.TimerFires | src/pages/MovieDetail/MovieDetail.jsx:22-39 | loading ends, and the default date is selected when there is one |
| MovieDetail.MovieDetailState.ClickDate | src/pages/MovieDetail/MovieDetail.jsx:257 | the clicked date becomes the selected one |
| AdminDashboard.KeepRecords | src/pages/Admin/Dashboard.jsx:70-88 | the records of an answer that are present and have their required fields: never more than the answer, and every kept record has them |
| AdminDashboard.KeepRecordsMembers | src/pages/Admin/Dashboard.jsx:70-88 | a record is kept exactly when it is present in the answer and has its required fields |
| AdminDashboard.KeepRecordsAppend | src/pages/Admin/Dashboard.jsx:70-88 | filtering keeps the answer's order: filtering two parts is filtering the whole |
| AdminDashboard.ListOf | src/pages/Admin/Dashboard.jsx:70-88 | a non-array answer gives an empty list; otherwise exactly the present records with their required fields |
| AdminDashboard.Loaded | src/pages/Admin/Dashboard.jsx:57-98 | a failed request or parse empties all three lists; every movie kept has a title, every booking a movie title and a user name, every user a name and an email |
| AdminDashboard.LoadedMoviesAreTheCompleteOnes | src/pages/Admin/Dashboard.jsx:70 | a movie is listed exactly when the array answer holds it with a non-empty title |
| AdminDashboard.ToAdd | src/pages/Admin/Dashboard.jsx:105-110 | the posted movie is now showing exactly when its status is "Now Showing", coming soon exactly when it is "Coming Soon", and otherwise is the form |
| AdminDashboard.AddFlagsExclusive | src/pages/Admin/Dashboard.jsx:105-110 | a movie sent by the add form is never both now showing and coming soon |
| AdminDashboard.DatePart | src/pages/Admin/Dashboard.jsx:210 | the release date shown holds no `T` and is the stored text up to its first `T`; empty when there is none |
| AdminDashboard.EditForm | src/pages/Admin/Dashboard.jsx:198-225 | the corrected edit form: a bare release date, the status and language or their defaults, the record's own now-showing flag when it has one, and the coming-soon flag or false |
| AdminDashboard.EditFormAsWritten | src/pages/Admin/Dashboard.jsx:202-225 | as written, the edit form differs from the corrected one in the now-showing flag only |
| AdminDashboard.AsWrittenAlwaysNowPlaying | src/pages/Admin/Dashboard.jsx:212 | as written, the edit form is always marked now showing, whatever the record says |
| AdminDashboard.AsWrittenComingSoonSendsBothFlags | src/pages/Admin/Dashboard.jsx:212-241 | as written, editing a coming-soon movie with `isNowPlaying: false` sends both flags set |
| AdminDashboard.EditFormKeepsFlags | src/pages/Admin/Dashboard.jsx:212-213 | the corrected form keeps both flags of a record that has them |
| AdminDashboard.EditOfAddedKeepsFlagsExclusive | src/pages/Admin/Dashboard.jsx:212-213 | editing a movie with exclusive flags, as the add form saves them, keeps them exclusive |
| AdminDashboard.EditFormOfRecord | src/pages/Admin/Dashboard.jsx:202-225 | saving a form and editing the saved record gives the form back, when its status and language are filled in and its date holds no `T` |
| AdminDashboard.EditFormOfBlankRecord | src/pages/Admin/Dashboard.jsx:202-225 | a record with nothing but its id opens the same blank form as "Add Movie" |
| AdminDashboard.DeleteMovie | src/pages/Admin/Dashboard.jsx:167 | a movie stays exactly when it was listed and its id is not the deleted one |
| AdminDashboard.DeleteMovieKeepsOrder | src/pages/Admin/Dashboard.jsx:167 | the other movies keep their order |
| AdminDashboard.DeleteMovieAbsent | src/pages/Admin/Dashboard.jsx:167 | deleting an id no movie has changes nothing |
| AdminDashboard.ReplaceWhere | src/pages/Admin/Dashboard.jsx:189-248 | same length; each matching entry is replaced by the answer, every other entry stays in place |
| AdminDashboard.ReplaceWhereEntries | src/pages/Admin/Dashboard.jsx:189-248 | every entry afterwards is the answer or an old entry that did not match |
| AdminDashboard.ReplaceWhereAbsent | src/pages/Admin/Dashboard.jsx:189-248 | without a matching entry the list is unchanged |
| AdminDashboard.ReplaceWhereIdempotent | src/pages/Admin/Dashboard.jsx:189-248 | applying the same answer twice is applying it once |
| AdminDashboard.UpdateBooking | src/pages/Admin/Dashboard.jsx:189-191 | only the bookings with the id are replaced by the answer; length and all other bookings are unchanged |
| AdminDashboard.UpdateMovie | src/pages/Admin/Dashboard.jsx:246-248 | only the movies with the selected id are replaced by the answer; length and all other movies are unchanged |
| AdminDashboard.VisibleMovies | src/pages/Admin/Dashboard.jsx:954-957 | a movie is shown exactly when it is listed, has a title, and its lowercased title contains the lowercased term |
| AdminDashboard.VisibleBookings | src/pages/Admin/Dashboard.jsx:1026-1030 | a booking is shown exactly when its movie title or its user's name contains the term, ignoring case |
| AdminDashboard.VisibleUsers | src/pages/Admin/Dashboard.jsx:1100-1104 | a user is shown exactly when the name or the email contains the term, ignoring case |
| AdminDashboard.EmptyTermListsEverything | src/pages/Admin/Dashboard.jsx:954-957 | with an empty term every loaded movie, booking and user is shown |
| AdminDashboard.SearchIgnoresTermCase | src/pages/Admin/Dashboard.jsx:956 | the case of the term does not change which movies are shown |
| AdminDashboard.TrimEach | src/pages/Admin/Dashboard.jsx:841 | one trimmed time per comma-separated piece |
| AdminDashboard.ParseTimes | src/pages/Admin/Dashboard.jsx:841 | one time per comma-separated piece, none holding a comma or surrounding whitespace |
| AdminDashboard.TimesRoundTrip | src/pages/Admin/Dashboard.jsx:836-841 | leaving the times box as shown keeps the row's times, when none holds a comma or surrounding whitespace |
| AdminDashboard.SeatsShown | src/pages/Admin/Dashboard.jsx:868 | the seats box never shows zero: a stored non-zero count is shown as it is |
| AdminDashboard.SeatsTypedAreShown | src/pages/Admin/Dashboard.jsx:868-873 | typing a positive count into the seats box shows that count |
| AdminDashboard.RemoveAt | src/pages/Admin/Dashboard.jsx:884 | removing row `index` drops exactly that row and keeps the others in order; an index past the end changes nothing |
| AdminDashboard.RemoveAtMultiset | src/pages/Admin/Dashboard.jsx:884 | the removed row is exactly the one at `index` |
| AdminDashboard.NewShowtime | src/pages/Admin/Dashboard.jsx:899-905 | the added row has the date part of today's timestamp, no times, no cinema and shows 100 seats |
| AdminDashboard.RemoveAddedShowtime | src/pages/Admin/Dashboard.jsx:884-907 | removing the row just added restores the rows |
| AdminDashboard.WithActorField | src/pages/Admin/Dashboard.jsx:592-622 | the named field of the actor takes the typed value and the other two stay |
| AdminDashboard.Dashboard.constructor | src/pages/Admin/Dashboard.jsx:19-51 | the movies tab, empty lists and term, loading, no form open, nothing selected, the blank form |
| AdminDashboard.Dashboard.FetchData | src/pages/Admin/Dashboard.jsx:57-98 | the lists are those the answers give and loading ends |
| AdminDashboard.Dashboard.OpenAddMovie | src/pages/Admin/Dashboard.jsx:379-406 | the add form opens blank, the edit form closes and nothing is selected |
| AdminDashboard.Dashboard.HandleAddMovie | src/pages/Admin/Dashboard.jsx:100-153 | the body posted is the form with its flags recomputed; a success appends the returned movie at the end and closes and clears the form; a failure changes nothing |
| AdminDashboard.Dashboard.HandleDeleteMovie | src/pages/Admin/Dashboard.jsx:155-173 | only a confirmed delete that the server accepts removes the movie |
| AdminDashboard.Dashboard.HandleUpdateBookingStatus | src/pages/Admin/Dashboard.jsx:175-196 | a success replaces the bookings with the id by the answer; a failure changes nothing |
| AdminDashboard.Dashboard.HandleEditMovie | src/pages/Admin/Dashboard.jsx:198-229 | the first movie with the id is selected and fills the (corrected) edit form, which opens while the add form closes; an unknown id does nothing |
| AdminDashboard.Dashboard.HandleUpdateMovie | src/pages/Admin/Dashboard.jsx:231-279 | with no movie selected nothing is sent or changed; otherwise the form is sent as it stands, and a success replaces the selected movie, closes the form and clears it |
| AdminDashboard.Dashboard.CancelAdd | src/pages/Admin/Dashboard.jsx:668-671 | the add form closes |
| AdminDashboard.Dashboard.CancelEdit | src/pages/Admin/Dashboard.jsx:918-923 | the edit form closes and no movie stays selected, so a later update sends nothing |
| AdminDashboard.Dashboard.SetAddFormStatus | src/pages/Admin/Dashboard.jsx:464-471 | the add form's status and both flags follow the choice, and the flags are never both set |
| AdminDashboard.Dashboard.SetStatus | src/pages/Admin/Dashboard.jsx:778-780 | the edit form's status changes and its flags stay |
| AdminDashboard.Dashboard.SetActorField | src/pages/Admin/Dashboard.jsx:584-623 | one field of one actor changes |
| AdminDashboard.Dashboard.SetShowtimeDate | src/pages/Admin/Dashboard.jsx:821-829 | the row's date changes |
| AdminDashboard.Dashboard.SetShowtimeTimes | src/pages/Admin/Dashboard.jsx:836-844 | the row's times become the parsed text |
| AdminDashboard.Dashboard.SetShowtimeCinema | src/pages/Admin/Dashboard.jsx:852-860 | the row's cinema changes |
| AdminDashboard.Dashboard.SetShowtimeSeats | src/pages/Admin/Dashboard.jsx:868-876 | the row's seat count becomes what `parseInt` reads from the text |
| AdminDashboard.Dashboard.RemoveShowtime | src/pages/Admin/Dashboard.jsx:883-886 | the row is removed and the list is one shorter |
| AdminDashboard.Dashboard.AddShowtime | src/pages/Admin/Dashboard.jsx:895-907 | the new blank row is appended |
| AdminDashboard.Dashboard.AddActor | src/pages/Admin/Dashboard.jsx:632-635 | a blank actor row is appended |
| AdminDashboard.Dashboard.SetSearchTerm | src/pages/Admin/Dashboard.jsx:311 | the typed text becomes the term |
| AdminDashboard.Dashboard.SetTab | src/pages/Admin/Dashboard.jsx:332-358 | the clicked tab becomes the active one |
| Banner.Carousel.constructor | src/pages/Home/Banner.jsx:9-10 | the first slide, no direction, and the index in range |
| DayPicker.DayState.constructor | src/pages/Select/Day.jsx:6 | no date selected and none reported |
| NotificationBell.Bell.constructor | src/components/NotificationBell.jsx:45-47 | no notifications, the panel closed, and the badge counting the unread ones |
| Tickets.TicketsPage.constructor | src/pages/Tickets/Tickets.jsx:87-89 | no tickets, loading, no error |
| Catalog.RowType | src/pages/Select/Seat.jsx:128-131 | a row is VIP exactly when the seat map lists it as a VIP row |
| Catalog.TypePrice | src/pages/Select/Seat.jsx:133-137 | a seat type costs the seat map's price for that type |
| AdminDashboard.NumberOrZero | src/pages/Admin/Dashboard.jsx:207 | a present rating is kept, a missing one becomes 0 |
| AdminDashboard.DirectorFormOf | src/pages/Admin/Dashboard.jsx:217-221 | each director field is the record's or empty, and all empty without a director |
| AdminDashboard.ArrayOrEmpty | src/pages/Admin/Dashboard.jsx:222-224 | an array is kept, anything else becomes the empty list |
| Js.OrEmpty | src/pages/Admin/Dashboard.jsx:203-206 | the `''` fallback of `x or ''`: a truthy value is kept, a missing or empty one gives the empty string |
| Js.OrDefault | src/pages/Admin/Dashboard.jsx:211 | the fallback `d` of `x or d`: a truthy value is kept, otherwise the default is taken |
| Js.TrimStart | src/pages/Auth/Register.jsx:65 | the result is a suffix of the input, what was dropped is all whitespace, and it does not start with whitespace |
| Js.TrimEnd | src/pages/Auth/Register.jsx:65 | the result is a prefix of the input, what was dropped is all whitespace, and it does not end with whitespace |
| Js.Trim | src/pages/Auth/Register.jsx:65-68 | `trim()` yields an infix of the input with only whitespace outside it and no whitespace at either end |
| Js.TrimNoWhitespace | src/pages/Home/Header.jsx:89 | a string with no whitespace at its ends is left unchanged by trimming |
| Js.Lower | src/pages/Home/Header.jsx:109-112 | `toLowerCase()` keeps the length and lowercases each character in place |
| Js.LowerIdempotent | src/pages/Home/Header.jsx:112 | lowercasing twice is the same as lowercasing once |
| Js.IncludesEmpty | src/pages/Home/Header.jsx:115-117 | every string includes the empty query |
| Js.IncludesSelf | src/pages/Home/Header.jsx:115-117 | every string includes itself |
| Js.Split | src/pages/Admin/Dashboard.jsx:841 | `split(sep)` gives at least one piece, no piece holds the separator, and a string without it is one piece |
| Js.JoinSplit | src/pages/Admin/Dashboard.jsx:841 | joining the pieces of a split with the same separator gives back the string |
| Js.SplitJoin | src/pages/Select/index.jsx:58 | splitting a join of separator-free pieces gives back the pieces |
| Js.BeforeFirst | src/pages/Admin/Dashboard.jsx:210 | `split(sep)[0]` is the longest separator-free prefix: a prefix of the input, followed by the separator unless it is the whole input |
| Js.BeforeFirstIsFirstPiece | src/pages/Admin/Dashboard.jsx:210 | that prefix is the first element of the split |
| Js.NatToString | src/pages/Payment/Payment.jsx:67 | `String(n)` is a non-empty digit string with no leading zero |
| Js.DigitsValueOfNatToString | src/pages/Payment/Payment.jsx:67 | the decimal value of `String(n)` is `n`, so distinct numbers give distinct strings |
| Js.ParseInt | src/pages/Admin/Dashboard.jsx:873 | `parseInt` gives NaN exactly when, after leading whitespace and an optional sign, no digit of the radix follows |
| Js.ParseIntNatToString | src/pages/Select/index.jsx:20 | `parseInt(String(n))` is `n` |
| Js.ParseIntDecimal | src/pages/Select/index.jsx:20 | a string starting with a digit and without a `0x` prefix is read as the value of its leading digits |
| Js.ParseIntStopsAtNonDigit | src/pages/Select/index.jsx:20 | `parseInt` ignores whatever follows the digits of `String(n)` when it does not start with a digit or turn a leading zero into a hex prefix |
| Js.SumOfPermutation | src/pages/Select/index.jsx:43-49 | a `reduce` sum does not depend on the order of the summands |
| Js.SumOfTwoValued | src/pages/Select/index.jsx:43-49 | a sum whose summands take one of two values is the count of each kind times its value |
| Js.FindIndex | src/pages/MovieDetail/MovieDetail.jsx:15 | the index found is that of the first element satisfying the predicate; none means no element does |
| Js.Find | src/pages/MovieDetail/MovieDetail.jsx:15 | `find` gives the first element satisfying the predicate, and `undefined` exactly when no element does |
| Js.QueryStringSplits | src/pages/MovieDetail/Cinema.jsx:15-21 | when no key or value holds `&`, splitting the query string on `&` gives back one `key=value` piece per pair |
| Js.Filter | src/pages/Home/Header.jsx:140 | `filter` keeps exactly the elements satisfying the predicate and is no longer than its input |
| Js.FilterAppend | src/pages/Home/Header.jsx:140 | filtering distributes over concatenation, so order is kept |
| Js.FilterAll | src/pages/Home/Header.jsx:140 | filtering with a predicate every element satisfies changes nothing |
| Js.FilterRemovesOne | src/pages/Home/Header.jsx:140 | filtering out the one element that fails the predicate removes exactly its position and keeps the rest in order |
| Js.FilterIdempotent | src/pages/Home/Header.jsx:140 | filtering twice with the same predicate is filtering once |
| Js.FilterNoDuplicates | src/pages/Home/Header.jsx:140 | filtering a duplicate-free sequence keeps it duplicate-free |
| Js.Distinct | src/pages/MovieDetail/MovieDetail.jsx:254 | `[...new Set(xs)]` has no duplicates and holds exactly the elements of `xs` |
| Js.SortBy | src/pages/Tickets/Tickets.jsx:101-103 | `sort` returns a permutation of its input |
| Js.SortBySorted | src/pages/Tickets/Tickets.jsx:101-103 | for a total and transitive comparator, the sorted result is in order |
| Js.DistinctSorted | src/pages/MovieDetail/MovieDetail.jsx:254 | `[...new Set(xs)].sort()` holds exactly the elements of `xs` |
| Js.DistinctSortedStrictly | src/pages/MovieDetail/MovieDetail.jsx:254 | that result is in the default string order and duplicate-free |
| Js.StrLeqTotal | src/pages/MovieDetail/MovieDetail.jsx:254 | the default string order of `sort()` relates every two strings |
| Js.StrLeqTransitive | src/pages/MovieDetail/MovieDetail.jsx:254 | the default string order is transitive |

## Left out
- Network access (`fetch`, axios, the service wrappers, the authentication context) is not modelled. Each response is an input value, and a failure is `None` or a flag.
- Timers are not modelled: the seat poll, loading delays, the banner interval, the search debounce and `storage` events. Only the state step each one triggers is modelled (`Tick`, `SearchFires`, `LoadingTimerFires`, `TimerFires`, a repeated `FetchOccupied`).
- Animation, swipe velocity, floating-point division, `toFixed`, `Intl.NumberFormat`, `toLocaleString` and moment/date-fns formatting are left out, because they only affect display.
- `Date.now()`, `new Date().toISOString()` and `new Date(...)` parsing are parameters (`now`, `isoNow`, `instant`), so invalid dates (NaN instants) are not modelled.
- Js.Lower: lowercases only ASCII letters, not the full Unicode case mapping of `toLowerCase`.
- Js.StrLeq: compares code points, while `sort()` and `localeCompare` compare UTF-16 code units and locale order. The two agree on the ASCII dates and row letters the pages use.
- Js.ParseInt: works on unbounded integers, so it does not model the precision loss of very long digit strings.
- SeatComponent.SeatLeq: a seat number that `parseInt` reads as NaN sorts as 0. In JavaScript such a number makes the comparator inconsistent.
- SeatComponent.MakeSeat: for an empty id the row is `""`, while JavaScript's `seat[0]` is `undefined`. Such an id only gets through when a `rows` entry is itself `""`.
- Banner.Carousel: the slide count `n` is fixed when the carousel is built. A `movies` prop whose length changes between renders is not modelled, although the source takes `% movies.length` afresh on every step (Banner.jsx:17 and :38).
- SeatComponent: `Object.entries` order is taken to be insertion order, which is what JavaScript gives for non-numeric keys.
- Js.QueryString: `URLSearchParams` percent-encoding is not modelled. The pair values are taken to be plain text.
- Select/index.jsx passes `movieId`, `seatPrices` and similar props to children that read `hall`. Each component is modelled at its own declared interface, not through that wiring.
- `src/components/Payment.jsx` is an incomplete fragment and is not part of this model. Presentation-only components, routing and `src/data` constants are not part of it either.
- `alert` is modelled as a flag or message field. A thrown storage access is the `None` case of the stored list.
- In the dashboard, a movie's `price` is kept as the text the form holds, and the rating is an integer, so a NaN rating is not modelled.
- AdminDashboard: the plain text-field edits of the forms are not separate methods (title, description, image and the like, Dashboard.jsx:648-806), and neither are the director field edits. Each is a one-field record update of `newMovie`, like `SetStatus`.
- Tickets.NewestFirst: the in-place `Array.sort` is modelled on a value, so it does not capture that the stored array itself is reordered.
- Tickets.DisplayYear: the moment object's `year(2024)` mutation is modelled on the year value.
- AdminDashboard.EditForm: used by the dashboard class in place of the as-written form (see Findings).
- SelectSeatsPage.Click: used by the page class in place of the as-written click (see Findings).
- SelectSeatsPage.SelectSeatsState.ClickSeat: applies the corrected click, so with eight seats held a click on a held available seat releases it. The page as written (index.jsx:50) ignores that click and the seat stays held; `ClickAsWritten` states that behaviour.
- AdminDashboard.Dashboard.HandleEditMovie: fills the corrected form, so a record whose `isNowPlaying` is false keeps false. The page as written (Dashboard.jsx:212) always sets it to true, and Dashboard.jsx:241 then sends both flags for a coming-soon movie; `EditFormAsWritten` states that behaviour.

## Findings
| source | as written | input that shows it | evidently intended | confidence | as-written member | corrected member |
|---|---|---|---|---|---|---|
| src/pages/SelectSeats/index.jsx:50 | the eight-seat limit guard comes before the seat is looked up, so at the limit every click returns early | eight seats selected, click on one of them (status `available`) | a selected seat can always be released; only a ninth new seat is refused | medium, not executed | SelectSeatsPage.AsWrittenCannotReleaseAtLimit | SelectSeatsPage.ClickReleasesAtLimit |
| src/pages/Admin/Dashboard.jsx:212 | the `isNowPlaying` default is a logical or with `true`, so it is always true, and the form is sent as is at Dashboard.jsx:241 | a Coming Soon movie with `isNowPlaying: false`, `isComingSoon: true` | `movieToEdit.isNowPlaying ?? true`, keeping the stored flag | high, not executed | AdminDashboard.AsWrittenComingSoonSendsBothFlags | AdminDashboard.EditOfAddedKeepsFlagsExclusive |
