# Daycare dashboard: list views, badges, calendar and notifications

This project models the logic behind the views of a daycare management
dashboard written in React and TypeScript, and proves properties of it:

- **Billing, expenses.** The expense table keeps the rows whose description or
  category contains the search text, ignoring case, and whose category equals
  the category filter, again ignoring case. The filter value `"all"` matches
  every row. The category select lists `"all"` followed by each lower-cased
  category once. Each option is labelled `"All Categories"` or with the
  category capitalised. Each expense shows a coloured status badge.
- **Billing, invoices.** The invoice table searches by child name, parent name
  or invoice number. The status filter is either `"all"` or a status, which
  must match exactly. Each invoice shows a status badge.
- **Teachers.** The directory searches by name, e-mail or position. The status
  select works as above. A teacher row also shows a status colour, the status
  capitalised, and avatar initials made of the first letter of each word.
- **Children.** The roster searches by name or classroom and has the tabs
  all, toddlers (age three and under) and preschool (over three). A card shows
  an attendance colour and an allergy count. The profile lists each guardian's
  role, relationship and e-mail address.
- **Events calendar.** It computes the events of the displayed month without
  rendering them, and lists the events of the selected day. Each day with events gets at most three coloured dots, one per
  event, plus one grey dot when there are more. Each event type has its own
  colour.
- **Notifications panel.** A stateful component (`class Panel`) holds the list
  of notifications and the active type filter. It can mark a notification as
  read, clear all notifications, and toggle the type filter. The visible list,
  the unread count and the "k new" badge are derived from that state.
- **Classrooms.** A classroom card previews two of its activities and adds a
  "+k more activities" line. The edit dialog pre-selects an age group from the
  classroom's `ageGroup` text.

Each page becomes one module. The shared helpers live in modules of their own:

- `Text`: the string functions the pages use, namely `toLowerCase`,
  `includes`, `split`, `join`, capitalisation, initials and one-character
  `replace`;
- `Lists`: `filter`, as a generic function, and the order-preserving
  de-duplication of `new Set`;
- `Palette`: the colour families of badges and dots;
- `Wrappers`: an `Option` type for `undefined` and `null`.

All filtered lists are proved to be order-preserving subsequences of their
input. Each one keeps exactly the elements its predicate accepts, with their
multiplicity. The lemmas then relate the filters to one another:

- idempotence;
- the initial empty query shows everything;
- case-insensitivity of the search;
- tab partitions;
- narrowing a filter by one more condition.

The model also records these behaviours of the code:

- The `"all"` sentinel of every filter is compared exactly. In the expense
  table, a filter such as `"ALL"` is not a bypass: it keeps only rows whose
  category lower-cases to `"all"`.
- The category option list repeats `"all"` exactly when some category
  lower-cases to `"all"`, because the sentinel is prepended to the set
  without being removed from it.
- A second click on the same notification type button does not always
  restore the previous filter. It does so only when no filter was active or
  when that very type was active. Otherwise the filter ends up cleared.

## Model

| member | source | states |
|---|---|---|
| Text.Lower | src/components/billing/ExpenseTracker.tsx:131-136 | `toLowerCase` keeps the length and maps each character through ASCII lower-casing |
| Text.LowerIdempotent | src/components/billing/ExpenseTracker.tsx:136 | lower-casing twice is lower-casing once |
| Text.LowerOfUpper | src/pages/teachers.tsx:268-269 | upper-casing a character and then lower-casing it gives the same result as lower-casing it directly |
| Text.ContainsIff | src/components/billing/ExpenseTracker.tsx:131-132 | `includes` holds exactly when the query occurs at some offset of the text |
| Text.ContainsEmpty | src/components/billing/ExpenseTracker.tsx:131-132 | the empty query is contained in every text |
| Text.Capitalize | src/pages/teachers.tsx:268-269 | only the first character changes, and only to its upper case; the length and the lower-cased text are kept |
| Text.CapitalizeIdempotent | src/pages/teachers.tsx:268-269 | capitalising twice changes nothing more |
| Text.Split | src/pages/teachers.tsx:248-249 | `split` returns at least one piece, and no piece contains the separator |
| Text.JoinSplit | src/pages/teachers.tsx:248-251 | joining the pieces of a split with the same separator gives back the string |
| Text.SplitJoin | src/pages/teachers.tsx:248-251 | splitting a join of separator-free pieces gives back the pieces |
| Text.SplitWord | src/pages/classrooms.tsx:765-766 | a string without the separator splits into itself |
| Text.SplitPrefix | src/pages/classrooms.tsx:765-766 | a separator-free word followed by the separator is the first piece |
| Text.SplitFirst | src/pages/classrooms.tsx:765-766 | the first piece is the longest separator-free prefix |
| Text.Initials | src/pages/teachers.tsx:248-251 | the avatar initials are the characters that start a word (the first character or one after a space) |
| Text.HeadsOfSplit | src/pages/teachers.tsx:248-251 | taking the first character of each split piece equals the word-start reading of the string |
| Text.WordStartsSkipWord | src/pages/teachers.tsx:248-251 | characters inside a word contribute no initial |
| Text.InitialsOfTwoWords | src/pages/teachers.tsx:248-251 | a two-word name has the first letters of both words as initials |
| Text.ReplaceFirst | src/pages/children.tsx:542 | `replace` with a one-character pattern changes only the first occurrence of that character |
| Lists.Filter | src/components/billing/ExpenseTracker.tsx:129-139 | `filter` returns an order-preserving subsequence holding exactly the accepted elements, each as often as in the input |
| Lists.FilterFilter | src/pages/children.tsx:152-154 | filtering by p and then by q is filtering by their conjunction |
| Lists.FilterCongruent | src/pages/children.tsx:147-157 | predicates that agree on the input keep the same list |
| Lists.FilterAll | src/components/billing/ExpenseTracker.tsx:129-139 | when every element passes, the result is the input |
| Lists.FilterNone | src/components/dashboard/EventsCalendar.tsx:75-83 | when no element passes, the result is empty |
| Lists.FilterPartition | src/pages/children.tsx:153-154 | two disjoint predicates split their union's result, element for element |
| Lists.FilterLengthFirst | src/components/dashboard/NotificationsPanel.tsx:109-111 | the first element adds one to the filtered length exactly when it passes |
| Lists.Positions | src/components/dashboard/NotificationsPanel.tsx:109-111 | exactly the positions of the list whose element passes the predicate |
| Lists.FilterLengthCountsPositions | src/components/dashboard/NotificationsPanel.tsx:109-111 | `filter(p).length` is the number of positions whose element passes p |
| Lists.FirstIndex | src/components/billing/ExpenseTracker.tsx:177-178 | the first position of an element: it holds the element and no earlier position does |
| Lists.FirstIndexAppend | src/components/billing/ExpenseTracker.tsx:177-178 | appending does not move the first occurrence of an element already present |
| Lists.Distinct | src/components/billing/ExpenseTracker.tsx:177-178 | `[...new Set(s)]` has no duplicates, has the same members as s, and keeps the order of first occurrence |
| ExpenseTracker.FilteredExpenses | src/components/billing/ExpenseTracker.tsx:129-139 | the visible rows are an order-preserving subsequence: exactly the rows matching the search (description or category) and the category filter, with multiplicity |
| ExpenseTracker.FilteredExpensesIdempotent | src/components/billing/ExpenseTracker.tsx:129-139 | filtering the visible rows again changes nothing |
| ExpenseTracker.EmptyQueryShowsAll | src/components/billing/ExpenseTracker.tsx:129-139 | the initial state, with an empty search and the filter "all", shows every expense |
| ExpenseTracker.FilteredExpensesIgnoresCase | src/components/billing/ExpenseTracker.tsx:131-136 | queries and filters that differ only in case give the same rows, provided both or neither filter is exactly "all" |
| ExpenseTracker.AllSentinelIsCaseSensitive | src/components/billing/ExpenseTracker.tsx:135-136 | a filter that only lower-cases to "all" keeps only rows whose category is "all" |
| ExpenseTracker.LowerCategories | src/components/billing/ExpenseTracker.tsx:178 | the lower-cased category of each expense, position by position |
| ExpenseTracker.CategoryOptions | src/components/billing/ExpenseTracker.tsx:175-179 | the options are "all", then each lower-cased category exactly once, in order of first occurrence |
| ExpenseTracker.CategoryOptionsRepeatAll | src/components/billing/ExpenseTracker.tsx:175-179 | the options contain no duplicate exactly when no category lower-cases to "all" |
| ExpenseTracker.EveryOptionSelectsSomething | src/components/billing/ExpenseTracker.tsx:175-179 | with an empty search, choosing any offered category shows at least one expense |
| ExpenseTracker.OptionLabel | src/components/billing/ExpenseTracker.tsx:202-204 | "all" reads "All Categories"; any other option is shown capitalised: its first character upper-cased and the rest unchanged |
| ExpenseTracker.OptionLabelSpellsCategory | src/components/billing/ExpenseTracker.tsx:200-204 | every category option's label lower-cases back to that option |
| ExpenseTracker.StatusBadge | src/components/billing/ExpenseTracker.tsx:141-164 | approved is capitalised in green, pending in yellow and rejected in red; any other status is shown verbatim without colour |
| ExpenseTracker.StatusBadgeLabels | src/components/billing/ExpenseTracker.tsx:143-161 | the three known statuses read "Approved", "Pending" and "Rejected" |
| ExpenseTracker.StatusBadgeTonesDistinct | src/components/billing/ExpenseTracker.tsx:141-164 | the three known statuses have three different colours |
| InvoicesList.FilteredInvoices | src/components/billing/InvoicesList.tsx:128-138 | the visible rows are an order-preserving subsequence: exactly the invoices matching the search (child, parent or number) and the status filter, with multiplicity |
| InvoicesList.FilteredInvoicesIdempotent | src/components/billing/InvoicesList.tsx:128-138 | filtering the visible rows again changes nothing |
| InvoicesList.AllImposesNoStatus | src/components/billing/InvoicesList.tsx:134-135 | with the filter "all" the rows are exactly the search matches |
| InvoicesList.StatusFilterIsExact | src/components/billing/InvoicesList.tsx:134-135 | the status comparison does not fold case: "Paid" keeps no invoice whose status is "paid" |
| InvoicesList.StatusBadge | src/components/billing/InvoicesList.tsx:140-163 | paid is capitalised in green, pending in yellow and overdue in red; any other status is shown verbatim without colour |
| InvoicesList.StatusBadgeLabels | src/components/billing/InvoicesList.tsx:142-160 | the three known statuses read "Paid", "Pending" and "Overdue" |
| InvoicesList.StatusBadgeTonesDistinct | src/components/billing/InvoicesList.tsx:140-163 | the three known statuses have three different colours |
| Teachers.FilteredTeachers | src/pages/teachers.tsx:146-156 | the visible rows are an order-preserving subsequence: exactly the teachers matching the search (name, e-mail or position) and the status select, with multiplicity |
| Teachers.FilteredTeachersIdempotent | src/pages/teachers.tsx:146-156 | filtering the visible rows again changes nothing |
| Teachers.StatusNarrowsAll | src/pages/teachers.tsx:152-153 | a specific status keeps the rows of "all" that have that status, in the same order |
| Teachers.StatusBadgeColor | src/pages/teachers.tsx:163-174 | active is green, on leave amber, training blue, and exactly every other status is grey |
| Teachers.StatusBadgeColorInjective | src/pages/teachers.tsx:163-174 | two known statuses share a colour only if they are equal |
| Teachers.StatusLabelExample | src/pages/teachers.tsx:268-269 | the status "on leave" reads "On leave" |
| Teachers.InitialsExample | src/pages/teachers.tsx:248-251 | "Emily Thompson" has the initials "ET" |
| Children.FilteredChildren | src/pages/children.tsx:147-157 | the visible cards are an order-preserving subsequence: exactly the children that match the search (name or classroom) and pass the tab's age test, with multiplicity |
| Children.ToddlersTab | src/pages/children.tsx:153 | the toddlers tab is the all tab narrowed to ages up to three, in the same order |
| Children.PreschoolTab | src/pages/children.tsx:154 | the preschool tab is the all tab narrowed to ages above three, in the same order |
| Children.AgeTabsPartitionAll | src/pages/children.tsx:152-154 | the two age tabs are disjoint and together hold exactly the children of the all tab |
| Children.UnknownTabIsAll | src/pages/children.tsx:156 | a tab value other than the three known ones shows the same cards as all |
| Children.AttendanceTone | src/pages/children.tsx:393-397 | green exactly from 90, amber exactly from 80 up to 90, red exactly below 80 |
| Children.AttendanceToneMonotonic | src/pages/children.tsx:393-397 | a higher attendance rate never gets a worse colour |
| Children.AllergyCount | src/pages/children.tsx:386 | "None" exactly when there are no allergies; otherwise the number of allergies, which is positive |
| Children.GuardianRole | src/pages/children.tsx:521-523 | index 0 reads "Primary Guardian" and every other index "Secondary Guardian" |
| Children.OnePrimaryGuardian | src/pages/children.tsx:521-523 | a non-empty guardian list has exactly one primary guardian |
| Children.Relationship | src/pages/children.tsx:549 | an even index reads "Mother" and an odd one "Father" |
| Children.RelationshipAlternates | src/pages/children.tsx:549 | neighbouring guardians get different relationships, and guardians two apart get the same one |
| Children.GuardianEmail | src/pages/children.tsx:542-543 | the address is the name lower-cased, with only its first space turned into a dot, followed by "@example.com" |
| Children.GuardianEmailOfName | src/pages/children.tsx:542-543 | for "first rest" with a one-word first name, the address is first.rest@example.com, lower-cased |
| EventsCalendar.EventsInMonth | src/components/dashboard/EventsCalendar.tsx:67-72 | exactly the events of the displayed month and year, in input order, with multiplicity |
| EventsCalendar.EventsOnDay | src/components/dashboard/EventsCalendar.tsx:103-108 | exactly the events dated that day, in input order, with multiplicity |
| EventsCalendar.EventsOnSelectedDate | src/components/dashboard/EventsCalendar.tsx:75-83 | nothing while no date is selected, otherwise the events of the selected day |
| EventsCalendar.DayWithinMonth | src/components/dashboard/EventsCalendar.tsx:67-83 | the events of a day are the events of its month narrowed to that day, in the same order |
| EventsCalendar.EventTypeTone | src/components/dashboard/EventsCalendar.tsx:86-99 | birthday is pink, activity green, holiday red and meeting blue |
| EventsCalendar.EventTypeToneInjective | src/components/dashboard/EventsCalendar.tsx:86-99 | two event types get the same colour only if they are the same type |
| EventsCalendar.DayIndicator | src/components/dashboard/EventsCalendar.tsx:102-125 | no indicator exactly on a day without events; otherwise min(3, k) dots coloured by the first events' types, and an overflow dot exactly when k > 3 |
| EventsCalendar.IndicatorAtMostFourDots | src/components/dashboard/EventsCalendar.tsx:116-124 | at most four dots are drawn under a day |
| EventsCalendar.SelectedDateExample | src/components/dashboard/EventsCalendar.tsx:75-83 | an event on 15 June 2024 is listed for that day and not for the next one |
| NotificationsPanel.MarkRead | src/components/dashboard/NotificationsPanel.tsx:86-90 | every notification with the id becomes read; all other fields and notifications are kept |
| NotificationsPanel.MarkReadIdempotent | src/components/dashboard/NotificationsPanel.tsx:86-90 | marking the same id twice is marking it once |
| NotificationsPanel.MarkReadClearsId | src/components/dashboard/NotificationsPanel.tsx:86-90 | after marking, no notification with that id is unread |
| NotificationsPanel.UnreadCount | src/components/dashboard/NotificationsPanel.tsx:109-111 | the count is the number of positions holding an unread notification; it is at most the list length and zero exactly when all are read |
| NotificationsPanel.MarkReadUnreadCount | src/components/dashboard/NotificationsPanel.tsx:84-111 | marking lowers the unread count by exactly the number of unread notifications with that id |
| NotificationsPanel.MarkReadFirst | src/components/dashboard/NotificationsPanel.tsx:86-90 | the first notification still counts as unread after marking exactly when it was unread and has another id |
| NotificationsPanel.Visible | src/components/dashboard/NotificationsPanel.tsx:103-107 | with no filter, the whole list; with a filter, exactly the notifications of that type, in order, with multiplicity |
| NotificationsPanel.NextFilter | src/components/dashboard/NotificationsPanel.tsx:98-101 | the filter becomes empty exactly when the requested type is null or already active; otherwise it becomes the requested type |
| NotificationsPanel.ToggleTwice | src/components/dashboard/NotificationsPanel.tsx:98-101 | two identical clicks restore the filter exactly when no filter was active or that type was active; otherwise the filter ends up cleared |
| NotificationsPanel.TypeVariant | src/components/dashboard/NotificationsPanel.tsx:113-124 | alerts exactly are destructive and reminders exactly are secondary |
| NotificationsPanel.ShowsUnreadBadge | src/components/dashboard/NotificationsPanel.tsx:133-137 | the "k new" badge is shown exactly when some notification of the whole list is unread; a row's mark-read button appears only when that row is visible and unread |
| NotificationsPanel.BadgeWithoutVisibleButton | src/components/dashboard/NotificationsPanel.tsx:103-111 | under a type filter the badge can show while no visible row is unread, since the badge counts the whole list and the buttons sit on the filtered rows |
| NotificationsPanel.Panel.constructor | src/components/dashboard/NotificationsPanel.tsx:78-82 | the panel starts with the given notifications and no filter |
| NotificationsPanel.Panel.MarkAsRead | src/components/dashboard/NotificationsPanel.tsx:84-91 | the list becomes MarkRead of the old list and the filter is unchanged; the id is reported; the unread count does not rise; no row with that id keeps its mark-read button |
| NotificationsPanel.Panel.ClearAll | src/components/dashboard/NotificationsPanel.tsx:93-96 | the list becomes empty and the filter is unchanged; the unread count is zero, the badge is hidden and nothing is visible |
| NotificationsPanel.Panel.FilterChange | src/components/dashboard/NotificationsPanel.tsx:98-101 | the filter becomes NextFilter of the old filter and the list is unchanged; the new filter is what gets reported |
| Classrooms.ActivityPreview | src/pages/classrooms.tsx:433 | the preview is a prefix of the activities of length min(2, n) |
| Classrooms.MoreActivities | src/pages/classrooms.tsx:441-445 | the "+k more" line appears exactly when there are more than two activities, and k is positive |
| Classrooms.PreviewAccountsForAll | src/pages/classrooms.tsx:433-445 | the previewed activities and the k counted in the "+k more" line add up to all activities; without that line the preview is the whole list |
| Classrooms.AgeGroupKey | src/pages/classrooms.tsx:763-767 | the key is the lower-cased text before the first space: a prefix of the lower-cased text, containing no space, followed by a space or the end |
| Classrooms.KeyOfLabel | src/pages/classrooms.tsx:763-767 | the key of "word rest" is the lower-cased word, when the word has no space |
| Classrooms.LowerKeepsSpaces | src/pages/classrooms.tsx:764-766 | lower-casing adds no space |
| Classrooms.AgeGroupKeyMatchesOneWordItems | src/pages/classrooms.tsx:773-781 | the keys of "Infants …", "Toddlers …" and "Preschool …" are the values of their select items |
| Classrooms.PreKKeyMatchesNoItem | src/pages/classrooms.tsx:763-784 | the key of "Pre-K (4-5 years)" is "pre-k", which is not the value of any select item |
| Classrooms.DropHyphens | src/pages/classrooms.tsx:782 | the result has no hyphen and keeps every other character as often as the input has it; an input without hyphens is returned unchanged |
| Classrooms.DropHyphensKeepsOrder | src/pages/classrooms.tsx:782 | dropping hyphens keeps the other characters in their order |
| Classrooms.AgeGroupSelectKey | src/pages/classrooms.tsx:763-784 | the corrected key has no hyphen and no space, and it equals the key as written whenever that key has no hyphen |
| Classrooms.AgeGroupSelectKeyMatchesItems | src/pages/classrooms.tsx:773-784 | the corrected key of every age-group label is the value of its own select item |
| Classrooms.SelectOneWord | src/pages/classrooms.tsx:773-781 | the corrected key of each one-word group is its item value |
| Classrooms.SelectPreK | src/pages/classrooms.tsx:782-784 | the corrected key of "Pre-K (4-5 years)" is "prek" |
| Classrooms.SelectKeyOfLabel | src/pages/classrooms.tsx:763-767 | the corrected key of "word rest" is the lower-cased word without hyphens |
| Classrooms.PreKWithoutHyphen | src/pages/classrooms.tsx:782 | "Pre-K", lower-cased and without hyphens, is "prek" |

## Left out

- Rendering is not modelled: JSX, Tailwind class strings beyond their colour family, icons, dialogs, tabs and layout. The layout components and routing are left out for the same reason, and so is the settings page.
- Charts and summary figures are left out because they are floating-point presentation: the payment history, attendance and metrics charts and the billing overview totals.
- The payment-methods panel and the quick-actions panel hold no logic beyond rendering, so they are not part of this model.
- Date and currency formatting through `toLocaleDateString` and `Intl` is left out, because locale data is outside the model.
- JavaScript `Date` values are modelled as already-normalised (year, month, day) triples. The calendar widget's own navigation and the current date are inputs to the model.
- `Math.random` in the teacher schedule is left out, because it is a source of randomness.
- Every case mapping is ASCII-only. Unicode case folding is not modelled.
- The mock data arrays are left out. Lemmas quantify over all inputs instead, and a few examples take the mock values as parameters.
- The parent callbacks of the notifications panel (`onMarkAsRead`, `onFilterChange`) are not called. Instead, the value passed to each one is returned by the matching `Panel` method.
- `onClearAll` takes no argument, so `Panel.ClearAll` reports nothing.
- The dashboard's fetching and re-rendering cycle is left out. Each handler is one atomic state change of `Panel`.
- The `default` branches of `getTypeColor` and `getEventTypeClass` cannot be reached with the typed unions. The model uses closed datatypes, so those branches do not appear.
- The attendance rate is a `real`, and ages are integers.
- NotificationsPanel.ToggleTwice: a second identical click does not always restore the starting filter. It does so only when no filter was active or that type was already active, because the handler compares the requested type with the filter it has just set.
- The child and guardian avatars use the same initials rule as the teacher directory, so `Text.Initials` covers them too.
- Children.GuardianEmail and Children.GuardianEmailOfName: ASCII lower-casing stands in for `toLowerCase`.
- Form submissions of the add and edit dialogs are left out. They only close the dialog and change no list.

## Findings

| source | as written | input that shows it | evidently intended | confidence | as-written member | corrected member |
|---|---|---|---|---|---|---|
| src/pages/classrooms.tsx:763-784 | the age-group select of the edit dialog starts on `ageGroup.toLowerCase().split(" ")[0]`, which for "Pre-K (4-5 years)" is "pre-k", while the item's value is "prek" | the classroom whose `ageGroup` is "Pre-K (4-5 years)" | every classroom's dialog starts on its own age group; dropping hyphens from the key gives "prek" | high for the mismatch, not executed | Classrooms.PreKKeyMatchesNoItem | Classrooms.AgeGroupSelectKeyMatchesItems |
