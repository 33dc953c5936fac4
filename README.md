# Raffle wheel, raffle panel, countdowns and leaderboard search

This project models the computational core of a community leaderboard web
application in Dafny. Hosts run raffles for the members of a community. The
model covers four components:

- **Spin wheel** (`spin_wheel.dfy`, module `SpinWheel`).
  - It selects the entrants with status ELIGIBLE or ENTERED.
  - A spin turns the wheel by a random number of turns plus a random segment.
  - Three seconds later it reads the winner's index off that spin's rotation and appends the winner to the history.
  - "Spin Again" clears `selectedWinner` and `isSpinning`. "Clear All" empties `winners` and clears `selectedWinner`. Closing the dialog clears `rotation`, `selectedWinner` and `isSpinning`.
- **Raffle host panel** (`raffle_admin.dfy`, module `RaffleAdmin`).
  - Two optional thresholds filter the entrant list: a maximum rank and a minimum volume.
  - "Calculate Eligible Entries" records how many entrants pass in `eligibleEntries` (142 until the first calculation). That number is never displayed: the "Eligible Entries" badge shows the length of the filtered list directly (src/components/RaffleAdmin.tsx:102).
  - "View Wheel" opens the wheel on exactly that list.
- **Countdowns** (`giveaway_section.dfy`, module `GiveawaySection`).
  - The raffle widget prints the time left as zero-padded `HH:MM:SS`, or `EXPIRED`.
  - Its LIVE!/ENDED badge and its codeword form follow that text.
  - Its "Submit Entry" button is disabled while the trimmed codeword is empty.
  - The leaderboard-period widget prints `Dd Hh Mm` or `Hh Mm`, or `Concluded`, and updates only while it is active.
- **Leaderboard page** (`leaderboard.dfy`, module `Leaderboard`).
  - The page has ten mock rows.
  - A case-insensitive name search that keeps the rows' order.
  - The rank icon, card background and status badge of each row.
  - The community name shown in the header.

Shared pieces:

- `collections.dfy` (module `Collections`) holds an option type, the subsequence relation and the order-preserving `filter`.
- `text.dfy` (module `Text`) holds decimal printing (`toString`, `padStart(2, '0')`), a digit reader and the proof that printing and reading are inverse.

The model follows JavaScript's semantics where they matter:

- `%` truncates toward zero (`JsRem360`, `JsRemInt`).
- `Math.floor` is `.Floor`.
- `trim` removes JavaScript's white-space and line-terminator set.

Clocks and randomness become parameters:

- A timer tick receives the distance or the current time in milliseconds.
- A spin receives its two `Math.random()` draws `r1` and `r2` in [0, 1).
- The 3000 ms timeout of a spin is the `PendingDraw` value that `Wheel.Spin` returns.
  - Whoever runs the timer later hands it to `Wheel.Complete`.
  - The source never cancels that timeout, so the model has no cancellation either.
  - A reveal after the dialog closed still appends a winner.

**Which segment the wheel reveals.** One could read the spin as revealing the segment it aims at, `randomSegment`. It does not. The index is computed from this spin's own `finalRotation`, not from the accumulated `rotation`, as `floor((360 - finalRotation % 360) / segmentAngle) % segments`.

- When the extra turns are whole, the revealed index is `(n - t) mod n` for target `t` (`WholeTurnsIndex`).
- With three entrants, whole extra turns (`r1 = 0`) and the last one as target, the second is revealed (`ThreeEntrantsAimedAtLast`, `ThreeEntrantDraw`). Other draws of `r1` add part of a turn, and the revealed index can then differ: with `r1 = 0.5` the same aim reveals the last entrant (`ThreeEntrantsHalfTurnMore`). `WholeTurnsIndex` states the rule for whole turns only.
- In general the index names the segment whose nominal range holds the pointer angle after this spin alone, starting from angle 0 (`WinnerUnderPointer`). The nominal range of segment k is `[k * segmentAngle, (k + 1) * segmentAngle)`, starting at the `startAngle` of src/components/SpinWheel.tsx:138. The accumulated `rotation` applied to the wheel can put another nominal segment there (`IndexIgnoresEarlierSpins`).
- "Under the pointer" always refers to this nominal layout, not to the wedges the component draws. Those are turned a further `startAngle + segmentAngle / 2`, so the model says nothing about which drawn wedge the pointer is over.


## Model

| member | source | states |
|---|---|---|
| Collections.Filter | src/components/SpinWheel.tsx:27-29 | `filter` keeps a subsequence of its input that is also a sub-multiset of it. Every kept element passes the test. Every element that passes is kept, as many times as it occurs in the input. |
| Collections.FilterAgreeingTests | src/components/RaffleAdmin.tsx:28-33 | Two tests that agree on every element of a list select the same sublist. |
| SpinWheel.SpinEligible | src/components/SpinWheel.tsx:27-29 | The wheel's entrants are the users whose status is ELIGIBLE or ENTERED, in order, and all of them: a user listed twice gets two segments. |
| SpinWheel.SpinEligibleIdempotent | src/components/SpinWheel.tsx:27-29 | Applying the status filter twice gives the same list as applying it once. |
| SpinWheel.SpinEligibleOfEligible | src/components/SpinWheel.tsx:27-29 | A list whose every element already passes the status test is taken unchanged. |
| SpinWheel.SegmentAngle | src/components/SpinWheel.tsx:32-33 | With at least one entrant the segment angle is positive, and the segments together fill exactly 360 degrees. |
| SpinWheel.FullRotations | src/components/SpinWheel.tsx:52 | The extra turns lie in [3, 6). |
| SpinWheel.RandomSegment | src/components/SpinWheel.tsx:53 | The target segment is a valid segment index. |
| SpinWheel.FinalRotation | src/components/SpinWheel.tsx:54 | One spin turns the wheel by at least 1080 and less than 2520 degrees. |
| SpinWheel.JsRem360 | src/components/SpinWheel.tsx:60 | `x % 360` takes the sign of `x`, lies strictly inside (-360, 360) and differs from `x` by a whole number of turns. |
| SpinWheel.JsRemInt | src/components/SpinWheel.tsx:61 | The integer `%` takes the sign of the dividend and differs from it by a multiple of the divisor. On non-negative dividends it is the mathematical remainder. |
| SpinWheel.WinnerIndex | src/components/SpinWheel.tsx:60-62 | For every rotation and every entrant count n >= 1, the revealed index lies in [0, n). With one entrant it is 0. |
| SpinWheel.PointerAngleIsCoterminal | src/components/SpinWheel.tsx:133-135 | The reference pointer angle differs from `-rotation` by whole turns: it is the wheel angle that a clockwise `rotate(rotation deg)` brings under the fixed pointer. |
| SpinWheel.WinnerUnderPointer | src/components/SpinWheel.tsx:60-61 | The revealed index is the segment whose nominal range `[k * segmentAngle, (k + 1) * segmentAngle)`, from the `startAngle` of :138, holds the wheel angle that this spin's rotation alone brings under the pointer. |
| SpinWheel.AlignedSpinIndex | src/components/SpinWheel.tsx:60-61 | A rotation that leaves the start of segment m exactly under the pointer reveals m. |
| SpinWheel.WholeTurnsIndex | src/components/SpinWheel.tsx:52-61 | With a whole number of extra turns, a spin aimed at segment t reveals segment (n - t) mod n. |
| SpinWheel.ThreeEntrantsAimedAtLast | src/components/SpinWheel.tsx:52-62 | Three entrants, three whole turns and target 2 give a 1320-degree spin that reveals index 1. |
| SpinWheel.ThreeEntrantsHalfTurnMore | src/components/SpinWheel.tsx:52-61 | Three entrants, `r1 = 0.5` (4.5 turns) and target 2 give a 1860-degree spin that reveals index 2. |
| SpinWheel.IndexIgnoresEarlierSpins | src/components/SpinWheel.tsx:54-61 | After two spins of 3.5 turns on a two-entrant wheel, index 1 is revealed, although the accumulated rotation puts the nominal range of segment 0 under the pointer. |
| SpinWheel.DrawnWinner | src/components/SpinWheel.tsx:62 | The announced winner is one of the entrants captured by the spin. With one entrant it is that entrant. |
| SpinWheel.Wheel.constructor | src/components/SpinWheel.tsx:20-23 | The wheel starts still, with an empty history, no announcement and rotation 0. |
| SpinWheel.Wheel.Spin | src/components/SpinWheel.tsx:45-57 | While a spin runs, or with no entrant, nothing changes. Otherwise it sets spinning, withdraws the announcement, keeps the history, adds this spin's rotation (at least 1080 degrees) and returns the pending reveal over the entrant list. |
| SpinWheel.Wheel.Complete | src/components/SpinWheel.tsx:59-67 | The reveal appends exactly one `{name, rank}` after the earlier winners, announces that name, stops spinning and leaves the rotation unchanged. |
| SpinWheel.Wheel.Reset | src/components/SpinWheel.tsx:70-73 | "Spin Again" clears the announcement and the spinning flag only. |
| SpinWheel.Wheel.ClearWinners | src/components/SpinWheel.tsx:75-78 | "Clear All" empties the history and clears the announcement. The rotation and the spinning flag are kept. |
| SpinWheel.Wheel.OpenChanged | src/components/SpinWheel.tsx:80-86 | Closing resets the rotation to 0, the announcement and the spinning flag, and keeps the history. Opening changes nothing. |
| SpinWheel.ThreeEntrantsSpin | src/components/SpinWheel.tsx:27-62 | All three ENTERED entrants take part, the forced draws give three whole turns and target 2, and that spin reveals B. |
| SpinWheel.ThreeEntrantDraw | src/components/SpinWheel.tsx:45-67 | A complete draw over entrants A, B, C with `r1 = 0` (three whole turns) and `r2 = 0.7` (aimed at C): a second click during the spin is ignored, and the history becomes exactly `[B]`. |
| RaffleAdmin.FilterEligible | src/components/RaffleAdmin.tsx:28-33 | The panel's list is a subsequence of the entrants. Every kept entrant has status ELIGIBLE or ENTERED, rank at most the rank threshold and volume at least the volume threshold. A non-numeric threshold keeps nobody. Every entrant meeting all three conditions is kept, as many times as it occurs. |
| RaffleAdmin.SelectionNonEmpty | src/components/RaffleAdmin.tsx:28-33 | The panel's list is non-empty exactly when some entrant meets both thresholds and has status ELIGIBLE or ENTERED. |
| RaffleAdmin.BlankThresholdsSelectByStatus | src/components/RaffleAdmin.tsx:28-33 | With both fields empty, the panel's list is exactly the wheel's status selection. |
| RaffleAdmin.WheelTakesFilteredList | src/components/RaffleAdmin.tsx:136-140 | The wheel's own status filter keeps the panel's list unchanged, so the wheel has a segment for every counted entrant. |
| RaffleAdmin.Panel.constructor | src/components/RaffleAdmin.tsx:21-25 | The panel starts with empty thresholds, the placeholder count 142 and the wheel closed. |
| RaffleAdmin.Panel.ViewWheelEnabled | src/components/RaffleAdmin.tsx:110-113 | "View Wheel" is enabled exactly when some entrant meets both thresholds and has status ELIGIBLE or ENTERED. |
| RaffleAdmin.Panel.SetMinRanking | src/components/RaffleAdmin.tsx:65 | Editing the rank field changes only that field. |
| RaffleAdmin.Panel.SetMinVolume | src/components/RaffleAdmin.tsx:78 | Editing the volume field changes only that field. |
| RaffleAdmin.Panel.CalculateEntries | src/components/RaffleAdmin.tsx:35-38 | The recorded count becomes the size of the filtered list, which is at most the number of entrants. Nothing else changes. The recorded count is never displayed; the badge shows the filtered list's length. |
| RaffleAdmin.Panel.ViewWheel | src/components/RaffleAdmin.tsx:110-113 | A click opens the wheel exactly when the button is enabled. |
| RaffleAdmin.Panel.CloseWheel | src/components/RaffleAdmin.tsx:138 | The wheel's `onClose` shuts the wheel and changes nothing else. |
| RaffleAdmin.PanelOnLeaderboardPage | src/pages/Leaderboard.tsx:202-207 | Mounted by the leaderboard page without an entrant list, the panel counts 0 and its wheel cannot open, whatever the thresholds. |
| Text.Decimal | src/components/GiveawaySection.tsx:136 | A number prints as a canonical numeral: a non-empty string of digits, with no leading zero except for 0 itself. |
| Text.CanonicalIsDecimal | src/components/GiveawaySection.tsx:136-138 | Every canonical numeral is the printed form of its value, so a number has exactly one canonical numeral. |
| Text.CanonicalPrefix | src/components/GiveawaySection.tsx:136-138 | A canonical numeral split off the front of a text is the printed number, followed by the rest of the text. |
| Text.DecimalRoundTrip | src/components/GiveawaySection.tsx:136-138 | Reading a printed number gives the number back. |
| Text.Pad2 | src/components/GiveawaySection.tsx:34 | `padStart(2, '0')` of a number below 100 gives two digits that read back as the number. |
| Text.LeadingDigits | src/components/GiveawaySection.tsx:136-138 | The string splits into its longest digit prefix and the rest. |
| Text.LeadingDigitsOf | src/components/GiveawaySection.tsx:136-138 | A digit string followed by a non-digit rest splits into exactly those two parts. |
| GiveawaySection.ClockParts | src/components/GiveawaySection.tsx:30-32 | For a positive distance, hours lie in [0, 23] and minutes and seconds in [0, 59]. They account for the distance's remainder modulo one day, to within less than one second. |
| GiveawaySection.ClockText | src/components/GiveawaySection.tsx:34 | The text is 8 characters: digits at positions 0-1, 3-4 and 6-7 and colons at positions 2 and 5. It reads back as the hours, minutes and seconds it was built from. |
| GiveawaySection.Countdown | src/components/GiveawaySection.tsx:29-37 | The timer text is "EXPIRED" exactly when the distance is <= 0. Otherwise it is an `HH:MM:SS` text that reads back as the clock parts of the distance. |
| GiveawaySection.BadgeAfterTick | src/components/GiveawaySection.tsx:56-77 | After a tick the badge reads LIVE! exactly when the raffle is live and its end lies in the future, and ENDED otherwise. The form is shown exactly when the badge reads LIVE!. |
| GiveawaySection.TrimStart | src/components/GiveawaySection.tsx:89 | It drops exactly the leading white space. |
| GiveawaySection.TrimEnd | src/components/GiveawaySection.tsx:89 | It drops exactly the trailing white space. |
| GiveawaySection.Trim | src/components/GiveawaySection.tsx:89 | `trim` returns an infix that neither starts nor ends with white space, with only white space around it. |
| GiveawaySection.SubmitDisabledIffBlank | src/components/GiveawaySection.tsx:89 | "Submit Entry" is disabled exactly when every character of the codeword is white space, including when the codeword is empty. |
| GiveawaySection.Giveaway.constructor | src/components/GiveawaySection.tsx:15-22 | The widget starts with an empty timer text and an empty codeword, and its invariant holds: the text is empty, "EXPIRED" or a clock text. |
| GiveawaySection.Giveaway.UpdateTimer | src/components/GiveawaySection.tsx:24-44 | A tick at time `now` sets the timer text to the countdown of `endTime - now`. Nothing else changes. Afterwards the badge reads LIVE! exactly when the raffle is live and `endTime > now`, and the countdown is shown exactly when `endTime > now`. |
| GiveawaySection.Giveaway.SetCodeword | src/components/GiveawaySection.tsx:84 | Typing replaces the codeword and changes nothing else. |
| GiveawaySection.Giveaway.Badge | src/components/GiveawaySection.tsx:54-62 | The badge reads LIVE! or ENDED, and LIVE! exactly when the codeword form is shown. |
| GiveawaySection.Giveaway.TimerShown | src/components/GiveawaySection.tsx:65-70 | The countdown is shown exactly when its text is empty or a clock text. While it is hidden the badge reads ENDED. |
| GiveawaySection.Giveaway.CanSubmit | src/components/GiveawaySection.tsx:77-89 | "Submit Entry" can be pressed exactly when the raffle is live, the text is not "EXPIRED" and the codeword has a character that is not white space. The badge then reads LIVE!. |
| GiveawaySection.PeriodParts | src/components/GiveawaySection.tsx:131-133 | For a positive distance, hours lie in [0, 23] and minutes in [0, 59], and D*86400000 + H*3600000 + M*60000 <= distance < that + 60000. |
| GiveawaySection.ReadHoursMinutesExact | src/components/GiveawaySection.tsx:138 | The reader accepts only a printed "Hh Mm": any text it reads as (h, m) is exactly that text. |
| GiveawaySection.ReadPeriodExact | src/components/GiveawaySection.tsx:135-139 | Any text the reader reads as a period is exactly that period's printed text. |
| GiveawaySection.PeriodTextRoundTrip | src/components/GiveawaySection.tsx:135-139 | The period text, with or without its day part, reads back as the days, hours and minutes it was built from. |
| GiveawaySection.PeriodRemaining | src/components/GiveawaySection.tsx:130-142 | The text is "Concluded" exactly when the distance is <= 0. Otherwise it reads back as the period parts, it is the only text that does, and it has a day part exactly when days > 0. The reader takes only numerals without leading zeros, so "02d 03h 04m" does not read back. |
| GiveawaySection.PeriodTimer.constructor | src/components/GiveawaySection.tsx:121 | The period widget starts with an empty text and satisfies its invariant. |
| GiveawaySection.PeriodTimer.UpdateTimer | src/components/GiveawaySection.tsx:123-149 | An active period sets its text to the remaining time at `now`. An inactive one never changes its text, which stays "". Afterwards the concluded notice shows exactly when the period is active and `endDate <= now`. |
| GiveawaySection.PeriodTimer.Badge | src/components/GiveawaySection.tsx:167-171 | The badge is present exactly when the period is active. |
| GiveawaySection.PeriodTimer.ShowsConcludedNotice | src/components/GiveawaySection.tsx:207-211 | The "Leaderboard Concluded" notice shows exactly when the badge reads "Concluded". |
| Leaderboard.GenerateLeaderboardData | src/pages/Leaderboard.tsx:28-43 | Ten rows, ranked 1 to 10 in order, with strictly falling volume, distinct names and statuses among ELIGIBLE, EXCLUDED and ENTERED. |
| Leaderboard.SameRowsForEveryCommunity | src/pages/Leaderboard.tsx:28-43 | The page gets the same ten rows whatever the community id. |
| Leaderboard.Lower | src/pages/Leaderboard.tsx:80 | Lower-casing keeps the length and maps each character on its own. |
| Leaderboard.ContainsIffOccurs | src/pages/Leaderboard.tsx:80 | `includes` holds exactly when the query occurs at some position of the name. |
| Leaderboard.Search | src/pages/Leaderboard.tsx:79-81 | The search keeps a subsequence of the rows. Every kept row's lower-cased name contains the lower-cased query. Every such row is kept, as many times as it occurs. |
| Leaderboard.EmptyQueryKeepsAll | src/pages/Leaderboard.tsx:79-81 | An empty query shows every row. |
| Leaderboard.SearchBySameLowerForm | src/pages/Leaderboard.tsx:80 | Queries with the same lower-case form select the same rows. |
| Leaderboard.SearchIgnoresCase | src/pages/Leaderboard.tsx:80 | The query typed in capitals or in lower case selects the same rows as the query as typed. |
| Leaderboard.LowerOfUpper | src/pages/Leaderboard.tsx:80 | Lower-casing an upper-cased string gives the lower case of the original. |
| Leaderboard.LowerIsIdempotent | src/pages/Leaderboard.tsx:80 | Lower-casing twice is lower-casing once. |
| Leaderboard.GetRankIcon | src/pages/Leaderboard.tsx:87-92 | Ranks 1, 2 and 3, and only they, get the gold, silver and bronze medals. Every other rank gets "#" followed by the rank as a canonical numeral that reads back as the rank, with a minus sign for a negative rank. A padded label such as "#07" would not meet this. |
| Leaderboard.RankLabelDigits | src/pages/Leaderboard.tsx:91 | The text of `#{rank}` is '#', a minus sign for a negative rank, and then a canonical numeral whose value is the rank's magnitude. |
| Leaderboard.RankLabelReadsBack | src/pages/Leaderboard.tsx:91 | The label of a rank past the podium reads back as the rank. |
| Leaderboard.GetRankBackground | src/pages/Leaderboard.tsx:94-101 | Each podium place has its own card. Past the podium, ENTERED rows, and only they, get the green card, and all other rows get the plain card. |
| Leaderboard.PodiumBackgroundIgnoresStatus | src/pages/Leaderboard.tsx:97-99 | A podium card does not depend on the status. |
| Leaderboard.OtherBackgroundFollowsEntered | src/pages/Leaderboard.tsx:95-100 | Past the podium, two statuses give the same card exactly when both or neither are ENTERED. |
| Leaderboard.GetStatusBadgeStyle | src/pages/Leaderboard.tsx:103-113 | ENTERED and EXCLUDED each have their own style. ELIGIBLE and every other status get the third. |
| Leaderboard.UnknownStatusLooksEligible | src/pages/Leaderboard.tsx:109-111 | An unknown status is styled like ELIGIBLE. |
| Leaderboard.CommunityName | src/pages/Leaderboard.tsx:74 | A known community id shows its display name. Any other id, and a missing one, shows "Unknown Community". |
| Leaderboard.UnknownCommunity | src/pages/Leaderboard.tsx:74 | "Unknown Community" is shown exactly when the id is not one of the nine communities, and always when the id is missing. |
| Leaderboard.ShowsRaffleAdmin | src/pages/Leaderboard.tsx:202-207 | The raffle host panel is on the page exactly when the community id is "btctalk". The header then names Bitcoin Talk. A missing id never shows it. |

## Left out

- Timers and clocks (`setTimeout`, `setInterval`, `clearInterval`, `Date.now()`, `new Date()`) are not modelled. Each tick is a method call with the current time, and each spin's reveal is a `PendingDraw` value applied later. The order in which pending reveals and other events interleave is up to the caller.
- `Math.random()`: the two draws of a spin are the parameters `r1` and `r2` in [0, 1).
- Floating-point rounding: angles and turns are exact reals, so the model does not capture rounding near a segment boundary.
- The CSS geometry of segments and labels (the `clip-path` polygons built with `Math.cos` and `Math.sin`, and the `transform` rotations) and the segment colours are rendering only.
- The drawn wedge layout is not modelled. Each wedge is a triangle from the centre to the two rim points at `startAngle` and `startAngle + segmentAngle` (src/components/SpinWheel.tsx:145-153). It is then rotated a further `startAngle + segmentAngle / 2` (src/components/SpinWheel.tsx:154). For n >= 3 the drawn wedge k therefore covers the angles `[2k * segmentAngle + segmentAngle / 2, 2k * segmentAngle + 3 * segmentAngle / 2)`, taken modulo 360. For n = 2 both triangles are flat, and for n = 1 both rim points coincide, so in either case no wedge is drawn under the pointer. The model's "under the pointer" is the nominal range from `startAngle` (src/components/SpinWheel.tsx:138) only.
- The progress-bar percentage of the period widget is floating-point rendering.
- `parseInt` is library behaviour. A threshold is taken after parsing: blank, a number, or NaN.
- `toLocaleString` and `toLocaleDateString` are locale libraries and are not modelled.
- Leaderboard.Lower: only ASCII letters are lower-cased. Unicode case mapping is a library table.
- Leaderboard.CommunityName: looking up an inherited object key such as "toString" yields a function in JavaScript. The model's lookup is a plain map.
- The header's image lookup and first-letter fallback are not modelled. Neither are the row's `change` and avatar rendering or the `mounted` animation flag.
- The default `endTime` of the raffle widget, two hours after the current time, depends on the clock. The widget takes its end time as a parameter. React evaluates that default on every render, not once.
- GiveawaySection.Giveaway.UpdateTimer and GiveawaySection.PeriodTimer.UpdateTimer: `endTime` and `endDate` stand for the end time of one render. In the source, the default end time of the raffle widget and the dates that src/pages/Leaderboard.tsx passes to both widgets are built from `Date.now()` on every render. Every re-render of the component that builds the date therefore moves the end and restarts the `[endTime]` or `[endDate, isActive]` effect. On the page, that happens with the `mounted` flip and with each search keystroke. On the default end time, it also happens with every tick that changes the text, so that countdown stays near two hours. The model does not capture this restart.
- The class strings behind the five `Card` backgrounds are rendering only. The model keeps which of the five cards a row gets.
- The props `title`, `description`, `communityName`, `totalMembers` and `startDate` only feed the markup.
- All JSX markup, dialogs, routing and the "Sign in", "Go Offline" and "Connect" buttons, which do nothing, are not modelled.
- src/pages/ApplyCommunity.tsx, src/pages/HostRaffle.tsx and src/pages/Index.tsx are not part of this model. They hold form validation by a foreign library, a toggle, and static mock data.
- Volumes and ranks are unbounded integers. JavaScript numbers are doubles, but every value here is a small integer.
