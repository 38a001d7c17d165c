# Pequena Evolução — a verified model of the vaccination engine and its surroundings

Pequena Evolução is a baby-care web application. Parents register babies and
record doctors, appointments and growth measurements. A vaccination module
derives each baby's vaccination schedule from the national reference calendar.

This project models the application's core in Dafny and proves properties of it.

- **The vaccination engine** (`VaccinationService`):
  - projects the active calendar entries onto a child's birth date;
  - stores one pending dose per entry;
  - marks a dose as applied;
  - derives the read-time fields `daysUntilDue`, `isOverdue` and `isDueSoon`;
  - counts the statistics.
- **The two route handlers that call the engine:** `/api/vaccines/schedule` (GET and POST) and `/api/vaccines/apply`.
- **The vaccines page and the vaccine card**, which re-derive the card's state on the client.
- **The routing middleware** that guards the authenticated pages.
- **The five zod form schemas:** authentication, baby, doctor, appointment and growth measurement.
- **The new-password page and its API route.**
- **The babies list page:** the age text and the delete handler.
- **The growth chart:** which measurements it plots, in what order, the baby's series, and the percentile reference lines.

Conventions:
- **Dates:**
  - A birth date is a civil date `(year, month, day)`.
  - A scheduled date is a day number counted from 1970-01-01.
  - "Now" is a millisecond timestamp.
  - Time zone arithmetic is UTC throughout.
- **Storage:** The backing store is in-memory sequences: the calendar, the babies, and the schedule rows in insertion order.
  - The store's ordering (`order by`) is a stable insertion sort over the stored order.
  - The store issues consecutive row ids.
- **Caller identity:** The authenticated caller is an `Option<Id>` parameter.
- **Outside answers:** The outcome of an outside call is a parameter, for example the account service's answer to a password update or the answer of the delete request.
- **Opaque predicates:** zod's e-mail and UUID formats are opaque `string -> bool` parameters.

Two behaviours of the code are worth stating outright:
- **Month addition is not clamped:** `setMonth` rolls the surplus days into the next month, so 31 January plus one month is 3 March. `CivilDates.AddMonthsRollsOver` and `CivilDates.JanuaryThirtyFirstPlusOneMonth` state that behaviour.
- **Every pending dose whose scheduled day has begun is overdue**, including one dated today. `VaccinationService.ViewOf` states that, and `VaccinationService.DueTodayIsOverdueAndDueSoon` shows that a dose due today is both overdue and due soon.

Module layout:

| module | contents |
|---|---|
| `Common` | `Option`, digit strings, `Filter`/`Find`/`Count` with their lemmas |
| `Sorting` | the stable sort and its ordering and key-preservation lemmas |
| `CivilDates` | day numbers and `setMonth` arithmetic |
| `Records` | the stored rows, plus baby lookups |
| `Http` | response shapes |
| `VaccinationService` | the engine, with a `VaccinationStore` class over the three tables |
| `ScheduleRoute`, `ApplyRoute` | the route handlers |
| `VaccineCard`, `VacinasPage` | the card and the vaccines page |
| `Middleware` | the routing middleware |
| `Validation` and the five `…Validation` modules | the form schemas |
| `ResetPasswordPage`, `ResetPasswordRoute` | the new-password page and its route |
| `BebesPage` | the babies list page |
| `DevelopmentChart` | the growth chart |

## Model

| member | source | states |
|---|---|---|
| VaccinationService.ActiveCalendar | lib/services/vaccinationService.ts:124-128 | exactly the active entries, each with its multiplicity, in ascending `age_months` order; unique ids stay unique |
| VaccinationService.ActiveCalendarFacts | lib/services/vaccinationService.ts:124-128 | the active filter keeps each active entry's multiplicity and drops inactive ones; sorting keeps ids unique |
| VaccinationService.FindEntry | lib/services/vaccinationService.ts:82 | finds an entry with the id; nothing is found exactly when no entry has it |
| VaccinationService.BatchSorted | lib/services/vaccinationService.ts:137-147 | entries in ascending age order give rows in ascending scheduled-date order |
| VaccinationService.BatchFields | lib/services/vaccinationService.ts:137-147 | each generated row is pending, belongs to the child, references its entry, has no completion data and is dated birth date plus the entry's months |
| VaccinationService.GeneratedRows | lib/services/vaccinationService.ts:124-147 | generation yields one row per active entry (none for an empty calendar), in ascending date order, with the fields above |
| VaccinationService.MarkApplied | lib/services/vaccinationService.ts:174-182 | rows with another id are untouched; rows with the id become completed, each completion column written from a text member, cleared by a `null` member and left as it was when the member is missing; an unknown id changes nothing |
| VaccinationService.DaysUntil | lib/services/vaccinationService.ts:77-80 | the ceiling of the distance to the scheduled day in days |
| VaccinationService.ViewOf | lib/services/vaccinationService.ts:76-92 | a pending row's day count is the `ceil` of its distance in days (`DaysUntil`), a non-pending row has none and carries no alerts; overdue iff pending and the scheduled day has begun; due soon iff pending and now lies from 7 days before to the end of the scheduled day; overdue implies non-positive days |
| VaccinationService.DueTodayIsOverdueAndDueSoon | lib/services/vaccinationService.ts:86-88 | a pending dose dated today is both overdue and due soon |
| VaccinationService.Rows | lib/services/vaccinationService.ts:84-91 | the views keep their stored rows, one for one |
| VaccinationService.StatsFacts | lib/services/vaccinationService.ts:201-205 | overdue and due-soon counts never exceed the pending count; without stored `overdue` rows, completed plus pending is the total |
| VaccinationService.StatsOf | lib/services/vaccinationService.ts:199-214 | total is the number of doses, next month is 0, the counts are bounded by the total, and completed plus pending is the total when no row is stored `overdue` |
| VaccinationService.StatsCountRows | lib/services/vaccinationService.ts:199-214 | over a read view, `completed` and `pending` count the rows with that status, `overdue` the pending rows whose day began before now, and `dueThisMonth` the pending rows due soon (from 7 days before to the end of the scheduled day) |
| VaccinationService.StatsCountPermutedRows | lib/services/vaccinationService.ts:199-214 | the same four counts hold over any reordering of the view's rows |
| VaccinationService.PermutedRows | lib/services/vaccinationService.ts:36-40 | a reordering of a child's rows keeps their number and keeps the statuses none of them has |
| VaccinationService.RowsOf | lib/services/vaccinationService.ts:36-39 | exactly the child's rows from the table |
| VaccinationService.BatchKeepsIds | lib/services/vaccinationService.ts:150-152 | appending a batch keeps row ids unique and issued below the new counter |
| VaccinationService.BatchKeepsDoses | lib/services/vaccinationService.ts:150-152 | appending a child's batch keeps each (child, entry) pair unique and the child's rows in one block |
| VaccinationService.BatchKeepsWellFormed | lib/services/vaccinationService.ts:104-157 | generating for a child without rows keeps the table well formed |
| VaccinationService.GenerateKeepsValid | lib/services/vaccinationService.ts:104-157 | appending the generated batch for a child without rows keeps every store invariant |
| VaccinationService.MarkKeepsWellFormed | lib/services/vaccinationService.ts:167-192 | marking a dose applied keeps the table well formed |
| VaccinationService.VaccinationStore.HasVaccinationSchedule | lib/services/vaccinationService.ts:10-28 | true iff some stored row belongs to the child |
| VaccinationService.VaccinationStore.GetVaccinationSchedule | lib/services/vaccinationService.ts:33-99 | fails (the baby lookup error) iff the child has rows but no baby record; otherwise a permutation of the child's rows in ascending date order, each with `ViewOf`'s derived fields and the child's identity |
| VaccinationService.VaccinationStore.GetVaccinationStats | lib/services/vaccinationService.ts:197-219 | fails iff reading the schedule fails; otherwise `StatsOf` of that read view, so total, completed, pending, overdue and `dueThisMonth` are the numbers of the child's stored rows that are present, completed, pending, overdue at now and due soon at now; next month is 0 |
| VaccinationService.VaccinationStore.GetVaccinationCalendar | lib/services/vaccinationService.ts:224-242 | exactly the active entries in ascending age order |
| VaccinationService.VaccinationStore.GenerateVaccinationSchedule | lib/services/vaccinationService.ts:104-162 | an existing schedule fails with the already-exists error; a missing baby fails with "Bebê não encontrado"; either failure leaves the table unchanged; otherwise exactly the generated batch is appended and no existing row changes |
| VaccinationService.VaccinationStore.InsertSchedule | lib/services/vaccinationService.ts:137-152 | appends one pending row per active calendar entry, with fresh ids, and the store stays valid |
| VaccinationService.VaccinationStore.MarkVaccineAsApplied | lib/services/vaccinationService.ts:167-192 | the table becomes `MarkApplied` of the old table; the calendar, babies and id counter are unchanged |
| Records.FindBaby | lib/services/vaccinationService.ts:64-68 | finds a baby with that id; nothing is found iff no baby has it |
| Records.BabiesOf | app/api/vaccines/schedule/route.ts:21-24 | exactly the user's babies |
| Records.OwnedBaby | app/api/vaccines/schedule/route.ts:96-101 | finds a baby with that id and that owner; nothing is found iff none matches both |
| Records.FindAmongOwn | app/api/vaccines/schedule/route.ts:35-36 | looking an id up among the user's babies finds what the id-and-owner lookup finds |
| ScheduleRoute.TargetChild | app/api/vaccines/schedule/route.ts:35 | a non-empty `childId` parameter wins; otherwise the user's first baby |
| ScheduleRoute.SelectChild | app/api/vaccines/schedule/route.ts:13-40 | 401 without a caller, then 404 "Nenhum bebê encontrado" without babies, then 404 "Bebê não encontrado" when the target is not the caller's, else the caller's baby |
| ScheduleRoute.SchedulePageOf | app/api/vaccines/schedule/route.ts:42-72 | without a schedule: an empty page with no stats; with one: the views and their stats; a failing read gives 500 |
| ScheduleRoute.GetSchedule | app/api/vaccines/schedule/route.ts:8-78 | 401 without a caller; a 200 page shows a baby of the caller, says whether a schedule exists, and its stats total equals its dose count |
| ScheduleRoute.GetNeverFailsOnValidStore | app/api/vaccines/schedule/route.ts:42-72 | on a well-formed store GET never answers 500 |
| ScheduleRoute.PostVerdict | app/api/vaccines/schedule/route.ts:85-113 | 401, then 400 for a missing id, then 404 unless the caller owns the baby, then 409 when a schedule exists; otherwise it proceeds with an owned baby that has no schedule |
| ScheduleRoute.PostSchedule | app/api/vaccines/schedule/route.ts:80-120 | a rejection leaves the store unchanged; otherwise it answers the success message and appends exactly that baby's generated batch |
| ApplyRoute.FindRow | app/api/vaccines/apply/route.ts:24-37 | finds a row with the id; nothing is found iff no row has it |
| ApplyRoute.ApplyVerdict | app/api/vaccines/apply/route.ts:13-41 | 401, then 400 for a missing id, then 404 for an unknown dose, then 500 when the dose's baby record is missing (reading its owner throws), then 403 when the dose's baby is not the caller's; otherwise it proceeds with the caller's dose |
| ApplyRoute.Apply | app/api/vaccines/apply/route.ts:8-53 | a rejection leaves the store unchanged; otherwise the table becomes `MarkApplied` with the body's members (missing, `null` or text, each passed through as it came) and the answer is the success message |
| ApplyRoute.ApplyTouchesOneRow | app/api/vaccines/apply/route.ts:44-49 | with unique row ids, applying changes only the found row and completes it |
| VaccineCard.CardOf | components/vaccines/VaccineCard.tsx:19-100 | overdue iff the scheduled day has ended; due soon iff now lies from 7 days before to the end of that day; never both; the days row shows iff there is no completed date, with "N dias em atraso" or "N dias"; the apply button shows iff the dose is pending |
| VaccineCard.CardAgreesWithEngine | components/vaccines/VaccineCard.tsx:19-29 | for pending doses the card's day count and due-soon flag equal the engine's, and card-overdue implies engine-overdue |
| VaccineCard.RulesDisagreeOnTheDay | components/vaccines/VaccineCard.tsx:28 | on the scheduled day itself the engine says overdue and the card does not |
| VaccineCard.CompletedRowsLookOverdueOnTheCard | components/vaccines/VaccineCard.tsx:28 | a completed past dose is overdue on the card but not to the engine |
| VacinasPage.FilteredVaccines | app/vacinas/page.tsx:86-97 | the tab keeps exactly the matching doses, in order; "all" keeps everything |
| VacinasPage.FilterMatchesStats | app/vacinas/page.tsx:86-97 | each tab holds as many doses as the matching statistic counts |
| VacinasPage.IsoDateRoundTrip | app/vacinas/page.tsx:69 | today's `YYYY-MM-DD` text has the fixed shape and reads back as the same year, month and day |
| VacinasPage.FourDigitYear | app/vacinas/page.tsx:69 | years 0..9999 print as four zero-padded digits |
| VacinasPage.MarkAsAppliedArgs | app/vacinas/page.tsx:65-72 | applies the dose dated today at "Posto de Saúde" with the note "Aplicada conforme cronograma" |
| VacinasPage.Page.FetchUserAndBebes | app/vacinas/page.tsx:34-59 | the user is stored and the spinner of line 99 stays exactly when there is none; with a user and a successful query, the list becomes `BabiesOf` the stored babies for that user (exactly the stored babies with that `user_id`, lines 40-43) and its first is selected; loading always ends; without a user or on a failure the list and the selection are kept |
| Middleware.AnyPrefix | middleware.ts:22-24 | true iff some route is a prefix of the path |
| Middleware.Decide | middleware.ts:14-36 | redirect to "/" iff protected without a session; redirect to the dashboard iff at login or "/" with a session; otherwise continue |
| Middleware.EntryPagesUnprotected | middleware.ts:14-34 | "/" and "/auth/login" are not protected, so the two redirects never chain |
| Middleware.ProtectedExamples | middleware.ts:14-24 | prefix matching: "/vacinas" is open while "/bebes/novo" and "/dashboards" are protected |
| Middleware.RedirectsFollowSession | middleware.ts:26-34 | without a session nothing goes to the dashboard; with one nothing goes back to "/" |
| Validation.Check | lib/validations/auth.ts:13-16 | one issue at the path iff the condition fails |
| Validation.Length | lib/validations/bebe.ts:4 | no issue iff the length lies within the bounds; a short or long input reports its message |
| Validation.MaxLength | lib/validations/consulta.ts:14 | valid iff at most the bound; otherwise exactly one issue at the field with the message (also `observacoes` in lib/validations/desenvolvimento.ts and `endereco` in lib/validations/medico.ts) |
| Validation.Optional | lib/validations/bebe.ts:16-17 | an absent field has no issue; a present one has the field's issues |
| Validation.OptionalOrEmpty | lib/validations/medico.ts:8-9 | no issue iff absent, empty or valid; otherwise the field's own issues |
| AuthValidation.LoginIssues | lib/validations/auth.ts:3-6 | valid iff the e-mail is an e-mail and the password has at least 6 chars |
| AuthValidation.RegisterIssues | lib/validations/auth.ts:8-16 | valid iff the name has 2 chars, the e-mail is valid, the password has 6 chars and both passwords agree; a mismatch is the last issue, at `confirmPassword` |
| AuthValidation.MismatchAloneFails | lib/validations/auth.ts:13-16 | with every field valid, a mismatch is the only issue |
| AuthValidation.ResetIssues | lib/validations/auth.ts:18-20 | valid iff the e-mail is valid |
| AuthValidation.ProfileIssues | lib/validations/auth.ts:22-25 | valid iff the name has 2 chars and the e-mail is valid |
| BebeValidation.Start1900IsNewYear1900 | lib/validations/bebe.ts:8 | the lower bound is midnight UTC on 1900-01-01 |
| BebeValidation.Name | lib/validations/bebe.ts:4 | valid iff 2..100 chars |
| BebeValidation.PaternalGrandfather | lib/validations/bebe.ts:16 | valid iff 2..100 chars |
| BebeValidation.MaternalGrandmother | lib/validations/bebe.ts:17 | valid iff 2..100 chars |
| BebeValidation.BirthIssues | lib/validations/bebe.ts:4-12 | valid iff the name fits, the birth date parses to a moment after 1900-01-01 and not after now, and the blood type is one of the eight |
| BebeValidation.FamilyIssues | lib/validations/bebe.ts:13-17 | valid iff the birthplace has 2..200 chars, the parents' names 2..100, and the grandparents' names are absent or 2..100 |
| BebeValidation.BebeIssues | lib/validations/bebe.ts:3-18 | valid iff both groups of fields are valid |
| BebeValidation.BebeUpdateIssues | lib/validations/bebe.ts:20-22 | valid iff the create schema passes and the id is a UUID; its issues come first |
| MedicoValidation.MedicoIssues | lib/validations/medico.ts:3-10 | valid iff name and specialty have 2..100 chars, the phone 10..15, the e-mail is absent, empty or valid, and the address is absent, empty or at most 200 chars |
| MedicoValidation.CrmUnconstrained | lib/validations/medico.ts:6 | the CRM field never affects the verdict |
| MedicoValidation.MedicoUpdateIssues | lib/validations/medico.ts:12-14 | valid iff the create schema passes and the id is a UUID |
| ConsultaValidation.MatchedTimeIsValid | lib/validations/consulta.ts:12 | every accepted time names an hour 0..23 and a minute 0..59 and is `H:MM` or `HH:MM` |
| ConsultaValidation.ValidTimeMatches | lib/validations/consulta.ts:12 | every hour 0..23 and minute 0..59 is accepted as `HH:MM` and, below 10, as `H:MM` |
| ConsultaValidation.TimeExamples | lib/validations/consulta.ts:12 | "9:05", "09:05" and "23:59" pass; "24:00", "9:5" and "12:60" fail |
| ConsultaValidation.WhoIssues | lib/validations/consulta.ts:4-5 | valid iff both ids are UUIDs |
| ConsultaValidation.WhenIssues | lib/validations/consulta.ts:6-13 | valid iff the date is not before today's midnight, the time matches, and the place has 2..200 chars |
| ConsultaValidation.StatusIssues | lib/validations/consulta.ts:15 | valid iff the status, defaulted, is one of the four |
| ConsultaValidation.ConsultaIssues | lib/validations/consulta.ts:3-16 | valid iff every field is valid |
| ConsultaValidation.AbsentStatusDefaults | lib/validations/consulta.ts:15 | an absent status becomes "agendada" and passes |
| ConsultaValidation.ConsultaUpdateIssues | lib/validations/consulta.ts:18-20 | valid iff the create schema passes and the id is a UUID |
| DesenvolvimentoValidation.Range | lib/validations/desenvolvimento.ts:11-12 | valid iff the number lies within the bounds |
| DesenvolvimentoValidation.DesenvolvimentoIssues | lib/validations/desenvolvimento.ts:3-14 | valid iff the baby id is a UUID, the date is not after the end of today, the weight lies in 0.5..50, the length in 30..200, and the notes are absent, empty or at most 500 chars |
| DesenvolvimentoValidation.TodayAcceptedTomorrowRejected | lib/validations/desenvolvimento.ts:5-10 | any moment of today is accepted and any moment from tomorrow on is rejected |
| DesenvolvimentoValidation.DesenvolvimentoUpdateIssues | lib/validations/desenvolvimento.ts:16-18 | valid iff the create schema passes and the id is a UUID |
| ResetPasswordPage.PasswordError | app/auth/reset-password/page.tsx:19-23 | "required" iff empty, "too short" iff 1..5 chars, no error iff at least 6 |
| ResetPasswordPage.ConfirmError | app/auth/reset-password/page.tsx:24-28 | "required" iff empty, "differ" iff non-empty and different, no error iff equal and non-empty |
| ResetPasswordPage.Page.OnSubmit | app/auth/reset-password/page.tsx:69-91 | without a token only the missing-token error is set; otherwise exactly one update call with the password and token, success on return, the error text on a throw, and loading ends |
| ResetPasswordRoute.ResetPassword | app/api/auth/reset-password/route.ts:10-51 | 400 for a missing or short password, then 401 without a user, then 400 with the service's error, else 200 "Senha atualizada com sucesso"; 200 iff all checks pass |
| ResetPasswordRoute.PasswordCheckedBeforeIdentity | app/api/auth/reset-password/route.ts:10-34 | an invalid password gets the same 400 whether or not anyone is signed in |
| BebesPage.AgeInDays | app/bebes/page.tsx:75-78 | the floor of the age in whole days |
| BebesPage.AgeOf | app/bebes/page.tsx:80-88 | below 30 days, days; below 365, months 1..12 as the floor of days/30; otherwise years at least 1 as the floor of days/365 |
| BebesPage.SingularExactlyForOne | app/bebes/page.tsx:83-87 | the text reads "1 mês" or "1 ano" exactly when the count is one |
| BebesPage.Page.HandleDelete | app/bebes/page.tsx:49-72 | a declined confirmation changes nothing; success removes that id's babies; a refusal shows the answer's error or the default text; a network failure shows the default text; the busy marker is cleared |
| BebesPage.DeleteRemovesExactlyThatId | app/bebes/page.tsx:61 | after a delete no baby has that id, every other baby remains in order, and deleting an absent id changes nothing |
| DevelopmentChart.LexTotal | components/dashboard/DevelopmentChart.tsx:92 | any two ids compare one way or the other |
| DevelopmentChart.LexTransitive | components/dashboard/DevelopmentChart.tsx:92 | the id comparison is transitive |
| DevelopmentChart.LexAntisymmetric | components/dashboard/DevelopmentChart.tsx:92 | only equal ids compare both ways |
| DevelopmentChart.ShownBeforeIsPreorder | components/dashboard/DevelopmentChart.tsx:84-93 | the comparator is a total preorder, so the sort is well defined |
| DevelopmentChart.RealData | components/dashboard/DevelopmentChart.tsx:80-93 | a permutation of exactly the items without the two reference notes, latest first, ties by ascending id |
| DevelopmentChart.SameDateOrderedById | components/dashboard/DevelopmentChart.tsx:89-92 | distinct ids on the same date appear in strictly ascending id order |
| DevelopmentChart.Plot | components/dashboard/DevelopmentChart.tsx:326-339 | one point per measurement at its age, with the selected quantity's value |
| DevelopmentChart.BabySeries | components/dashboard/DevelopmentChart.tsx:326-340 | the series has no point without a value |
| DevelopmentChart.SeriesPlotsMeasuredOnly | components/dashboard/DevelopmentChart.tsx:326-340 | dropping empty points equals plotting only the measurements that have the quantity, in order |
| DevelopmentChart.ReferenceLabels | components/dashboard/DevelopmentChart.tsx:96-127 | seven non-empty captions (97/90/75/50/25/10/3) for body-mass index, five (97/90/50/10/3) for weight and length |
| DevelopmentChart.Line | components/dashboard/DevelopmentChart.tsx:142-145 | one point per reference row, in order, at the row's age with the percentile's value |
| DevelopmentChart.DrawnFacts | components/dashboard/DevelopmentChart.tsx:136-314 | the percentiles drawn are the labelled ones, in strictly descending order |
| DevelopmentChart.ReferenceDataset | components/dashboard/DevelopmentChart.tsx:140-152 | the caption is the label when present and non-empty, else the fallback |
| DevelopmentChart.DrawnLines | components/dashboard/DevelopmentChart.tsx:136-314 | lines built in drawing order cover exactly the labelled percentiles, descend, and carry the label map's captions |
| DevelopmentChart.BmiLines | components/dashboard/DevelopmentChart.tsx:139-237 | the seven body-mass-index lines in drawing order |
| DevelopmentChart.GrowthLines | components/dashboard/DevelopmentChart.tsx:242-312 | the five weight or length lines in drawing order |
| DevelopmentChart.CreateReferenceDatasets | components/dashboard/DevelopmentChart.tsx:132-317 | no lines without reference rows; otherwise 7 for body-mass index and 5 otherwise, one per labelled percentile, highest first, captioned from the label map, with one point per reference row |
| CivilDates.AddMonthsFromFirst | lib/services/vaccinationService.ts:138-139 | `setMonth(getMonth() + n)` lands on the given day counted from the first of the target month |
| CivilDates.AddMonthsIncreasing | lib/services/vaccinationService.ts:138-139 | more months give a strictly later date |
| CivilDates.AddZeroMonths | lib/services/vaccinationService.ts:138-139 | zero months give the birth date |
| CivilDates.AddMonthsFits | lib/services/vaccinationService.ts:138-139 | a day that fits the target month gives that day of that month |
| CivilDates.AddMonthsRollsOver | lib/services/vaccinationService.ts:138-139 | a day past the target month's end rolls into the next month |
| CivilDates.JanuaryThirtyFirstPlusOneMonth | lib/services/vaccinationService.ts:138-139 | 2023-01-31 plus a month is 2023-03-03; in 2024 it is 2024-03-02 |
| CivilDates.CeilDiv | lib/services/vaccinationService.ts:80 | `Math.ceil` of a division by a positive divisor |
| CivilDates.FloorDiv | app/bebes/page.tsx:78 | `Math.floor` of a division by a positive divisor |
| CivilDates.StartOfDay | lib/validations/consulta.ts:9 | the midnight that begins the day containing now |
| CivilDates.EndOfDay | lib/validations/desenvolvimento.ts:8 | the last millisecond of the day containing now |
| Sorting.SortBySorted | lib/services/vaccinationService.ts:40 | the store's ordering yields an ordered sequence for any total preorder |
| Sorting.SortBySortedInput | lib/services/vaccinationService.ts:40 | ordering an already ordered sequence changes nothing |
| Sorting.SortByKeepsDistinct | lib/services/vaccinationService.ts:128 | ordering keeps unique keys unique |
| Sorting.SortByStable | lib/services/vaccinationService.ts:40 | the ordering is stable: the elements ranked equal to any given one come out in their stored order |

## Left out

- **Failures of the backing store:** query errors and insert or update errors throw in the engine, at lib/services/vaccinationService.ts:18-21, 42-45, 58-61, 130-133, 154-157 and 184-187. The routes answer them with 500. The model's store never fails.
  - The one modelled read failure is the missing baby record behind existing schedule rows.
  - The routes' catch-all 500 answers are not modelled.
  - The 500 of a failing baby query in GET is not modelled.
- **Server clock and time zone:** the clock is the `now` parameter. All date arithmetic is UTC, whereas JavaScript's `setMonth`, `getMonth` and `setHours` use the runtime's local zone.
- **Date parsing:**
  - Parsing date strings (`new Date(text)`) is not modelled. Parsed dates are timestamps, and `None` stands for an invalid date.
  - The growth chart's measurement dates are taken to be valid.
  - `toISOString` is modelled only for the year, month and day fields it prints.
- **String rules:**
  - Lengths count Unicode code points rather than UTF-16 units.
  - `localeCompare` is code-point order.
  - zod's e-mail and UUID regular expressions are opaque predicates.
  - An issue is modelled by its path and message only. zod's issue codes and its other issue fields are not modelled.
- **Untyped input:** a `password` that is not a string, or a request body that is not JSON, reaches the reset route's catch branch (app/api/auth/reset-password/route.ts:53-67). The model takes typed inputs, so that branch is not modelled.
- **Concurrency:** concurrent requests, and React's asynchronous state updates, are not modelled. Every handler runs to completion on the state it starts from.
- **Reset page session check:** the session check that sets the reset page's token (app/auth/reset-password/page.tsx:48-67) is not modelled. Neither is the redirect three seconds after success. The token is a constructor argument.
- **List loading:** the babies page's list loading and the vaccines page's hook (hooks/useVaccinationSchedule.ts) are not part of this model. The confirmation dialog's answer is a parameter.
- **Chart inputs and styling:** the growth chart's fetch of reference rows is not modelled; the rows are a parameter. Colours, line styles and every Chart.js option are presentation only.
- **Middleware scope:** the middleware's `matcher` configuration (middleware.ts:39-50) is not modelled. The session lookup is the `hasSession` parameter.
- **Fractional quantities:** weight, length and age in months are reals, since zod's `number` is a double. Floating-point rounding is not modelled.
- ScheduleRoute.GetSchedule: its contract states the 401 case and the content of a successful page. The 404 answers are stated by `ScheduleRoute.SelectChild`, and the 500 answer by `ScheduleRoute.SchedulePageOf`.
