# Securities and deposits record manager — a Dafny model of its query and form logic

The application is a PyQt desktop front end over a PostgreSQL database.
It covers two registries:

- a securities registry: legal entities, investors, emitters, registrars,
  emissions, stocks and sales;
- a bank registry: clients, passports, deposits, deposit transactions,
  employees and reports.

Almost all of its behaviour sits in two places:

- the SQL text it sends, together with the positional parameter tuples it
  builds for that text;
- the rules its dialogs apply before they write.

This project models that behaviour and proves what it means:

- **Optional-filter list queries.** Each list query is a sequence of WHERE
  "slots" such as `(col LIKE %s OR %s IS NULL)`, each bound to a criterion.
  For every tab, the parameter tuple the tab builds is proved to be the
  criteria placed slot by slot. The bound WHERE clause is proved to keep
  exactly the rows that meet the criteria. On the screens without date
  editors (entities, investors, emitters, registrars, stocks, clients),
  cleared fields list every row. The search screen and the emission and
  sale tabs keep their date filters after clearing (see Date editors).
- **The 35-placeholder combined search.** This is a `UNION ALL` of a sale
  branch and an emission branch, with a `NOT EXISTS` subquery and a
  three-key `ORDER BY`. It is modelled over a database of tables, with its
  joins. The search screen's tuple is proved to line up with the statement.
  The result is proved to be exactly the wanted rows, with sales sorted
  before emissions.
- **Dynamic query builders.** These are the screens that append
  `AND ... %s` conditions, plus the table windows with their sentinel
  comparisons (`%s = 'Все типы'`). Placeholders are proved to be counted
  correctly, and the filters are proved to mean what the screens show.
  The deposit, document and transaction windows receive their owner's id
  as the text of a table cell. Any non-empty text, `"0"` included, adds
  the owner condition, and the server reads the text back as the id.
- **Dialog validators.** The error list of each dialog is proved to hold
  exactly the failing checks, in order. The focus chain is proved to pick
  the first failing field. Uniqueness checks are proved to find exactly the
  conflicting records, and never the record itself.
- **The deposit lifecycle.** Opening, editing, closing and top-up are
  modelled as transitions of a bank state. Opening, closing and top-up are
  proved to keep the journal consistent with the balances. An edit writes
  no journal entry, so it keeps them consistent exactly when it leaves the
  amount unchanged. These are the dialog's handlers as its code defines
  them. As written, the dialog never opens: its first load reads the
  per-client aggregate rows as deposits and raises (see Findings).
- **Date editors.** Qt keeps every `QDateEdit` on a valid date, and the
  screens' `setDate(QDate())` resets are ignored. The date filters of the
  search screen and of the emission and sale tabs are therefore never off,
  and the registrar dialog's "expiry missing" check never fires. Both are
  recorded under Findings, next to the readings the screens evidently
  intend.
- **Presentation rules.**
  - Button gating by role and selection.
  - The table windows' text filter.
  - Report truncation and transaction-type labels.
  - Combo-box loading and preselection in the sale and emission dialogs.

SQL values are modelled with three-valued logic, where NULL is `None`. A row
is kept only when its WHERE clause is `True`. `LIKE` is modelled by its
`%`/`_` semantics. `ORDER BY` is modelled by a stable sort that meets the
keys; PostgreSQL leaves the order of ties unspecified.

The modules, in dependency order:

| module | file |
|---|---|
| `Wrappers` | wrappers.dfy |
| `Text` | text.dfy |
| `Dates` | dates.dfy |
| `Sql` | sql.dfy |
| `Slots` | slots.dfy |
| `Ordering` | ordering.dfy |
| `Criteria` | criteria.dfy |
| `Queries` | queries.dfy |
| `CombinedSearch` | combined_search.dfy |
| `SearchTab` | search_tab.dfy |
| `PartyTabs` | party_tabs.dfy |
| `MarketTabs` | market_tabs.dfy |
| `TabActions` | tab_actions.dfy |
| `TableView` | table_view.dfy |
| `WindowQueries` | window_queries.dfy |
| `PhoneSearch` | phone_search.dfy |
| `Forms` | forms.dfy |
| `Deposits` | deposits.dfy |
| `Pickers` | pickers.dfy |

## Model

| member | source | states |
|---|---|---|
| Text.Strip | ui/search_tab.py:114-136 | `str.strip()`: the result is a slice of the input with only whitespace removed from both ends, and it neither starts nor ends with whitespace |
| Text.StripUnicodeSpaces | ui/entity_dialog.py:113-119 | whitespace is Python's `str.isspace` set, so a name field holding only a no-break space strips to empty and counts as missing |
| Text.StripIdeographicSpace | ui/entity_dialog.py:113-119 | an ideographic space typed before a name is cut, leaving exactly the name, as Python's `strip` does |
| Text.StripBlankIff | ui/entities_tab.py:174-178 | a field counts as blank (`if text`) after stripping exactly when it held only whitespace |
| Text.StripIdempotent | ui/entity_dialog.py:113-119 | stripping a stripped value changes nothing |
| Text.LowerOfUpper | ui/stocks_tab.py:191-193 | upper-casing a text before a lower-cased comparison changes nothing |
| Text.DigitsOf | ui/table_windows/clients_window.py:158 | keeps only digits; the result is empty exactly when the input holds no digit |
| Text.DigitsOfCounts | ui/table_windows/clients_window.py:158 | every digit of the input is kept, as often as it occurs |
| Text.DigitsOfChar | ui/table_windows/clients_window.py:158 | a single character yields itself when it is a digit, else nothing |
| Text.DigitsConcat | ui/table_windows/clients_window.py:158 | the digits of a concatenation are those of each part in turn, so the digits keep their order |
| Text.RemoveChars | ui/client_dialog.py:94 | the `replace(...)` chain removes every listed character and leaves a text without them unchanged |
| Text.RemoveCharsCounts | ui/client_dialog.py:94 | every character not listed is kept, as often as it occurs |
| Text.RemoveCharsChar | ui/client_dialog.py:94 | a single character is kept exactly when it is not listed |
| Text.RemoveCharsConcat | ui/client_dialog.py:94 | removal works piecewise on a concatenation, so the kept characters keep their order |
| Text.StrLessTrichotomy | database/queries.py:358 | text ordering is total: of two different strings, one sorts first |
| Text.StrLessTransitive | database/queries.py:358 | text ordering is transitive |
| Dates.FilterDate | ui/emissions_tab.py:204-217 | a date filter is present exactly when the `QDate` is valid; `isNull()` adds nothing |
| Dates.SetDate | ui/search_tab.py:49 | `setDate` replaces the shown date with a valid one and ignores an invalid one such as `QDate()` |
| Dates.EditorValue | ui/search_tab.py:140-150 | an editor's `date()` is always valid and converts back to the date shown |
| Dates.ResetKeepsDate | ui/search_tab.py:106-107 | resetting an editor with `setDate(QDate())` keeps its date, and the filter read from it is that date |
| Dates.IntendedFilter | ui/search_tab.py:48-51 | the evidently intended reading: the blank minimum date 1990-01-01 means no date, any other date itself |
| Dates.IntendedResetBlank | ui/search_tab.py:48-51 | a reset to the minimum reads as no date under the intended reading, while the as-written reset keeps a filter |
| Dates.ValidOnlyAgrees | ui/sells_tab.py:199-200 | the screens that test only `isValid()` read the same filter as those that also test `isNull()` |
| Dates.BeforeTotal | database/queries.py:216-219 | SQL date order is a strict total order |
| Dates.PadOrder | database/queries.py:297-300 | zero-padded decimal text orders exactly like the numbers it writes |
| Dates.IsoTextOrder | database/queries.py:358 | `date::text` (`YYYY-MM-DD`) sorts exactly like the dates; equal texts mean equal dates |
| Sql.And | database/queries.py:13-14 | SQL `AND`: true exactly when both sides are true, false when either is false |
| Sql.Or | database/queries.py:13-14 | SQL `OR`: true when either side is true, false only when both are false |
| Sql.Compare | database/queries.py:13-14 | a comparison with a NULL side is unknown, and only then |
| Sql.IdParam | ui/entity_dialog.py:154-157 | an optional id is sent as NULL exactly when it is `None`, otherwise as that id |
| Sql.IdTextInjective | ui/table_windows/clients_window.py:175 | the cell texts `str(id)` of different ids differ |
| Sql.CompareIdText | ui/table_windows/deposits_window.py:247-264 | `d.client_id = %s` bound to the text of an id holds exactly on that id |
| Sql.LikeContains | database/queries.py:14 | `LIKE '%t%'` with a wildcard-free `t` holds exactly when `t` occurs in the value |
| Sql.LikePrefix | database/queries.py:14 | `LIKE 't%'` with a wildcard-free `t` holds exactly for values starting with `t` |
| Sql.LikeLowerContains | database/queries.py:13 | `LOWER(c) LIKE LOWER('%t%')` is case-insensitive containment |
| Sql.LikePlainContains | database/queries.py:367 | case-sensitive `LIKE '%t%'` is plain containment |
| Sql.LikeLowerIgnoresUpper | ui/sells_tab.py:194-196 | upper-casing the pattern never changes a `LOWER ... LIKE LOWER` comparison |
| Sql.FlattenCount | database/db.py:36-42 | psycopg2 finds exactly the placeholders the code wrote into the text |
| Sql.Bind | database/db.py:42 | `execute` accepts a tuple of exactly the placeholder count, or any tuple when the text holds no placeholder; it then sends the tuple unchanged, or nothing when there is no placeholder |
| Slots.Get | database/queries.py:11 | a column reads as NULL exactly when the row has no value for it |
| Slots.KeepsConcat | database/queries.py:13-14 | a WHERE clause of two `AND`ed parts keeps a row exactly when each part keeps it |
| Slots.Filter | database/queries.py:13-15 | the kept rows are exactly the input rows the WHERE clause keeps, each as often as in the input |
| Slots.SlotHolds | database/queries.py:13 | an optional slot bound to one value, repeated for each of its placeholders, is the slot's filter on that value |
| Slots.BoundMeaning | database/queries.py:10-16 | binding each slot to a value keeps a row exactly when every slot's filter holds for it |
| Slots.AllInactiveKeepsAll | database/queries.py:13-14 | with every criterion NULL the WHERE clause keeps every row, in order |
| Slots.BindAligned | database/queries.py:139-154 | the `k`-th parameter of a bound tuple is the value of the slot whose placeholders hold position `k` |
| Slots.WhereCount | database/queries.py:10-16 | a WHERE clause's text holds one placeholder per parameter its slots consume |
| Slots.SlotCount | database/queries.py:13 | each slot's text holds exactly as many placeholders as it consumes |
| Ordering.ValueLessStrictTotal | database/queries.py:15 | the value order used for sorting is irreflexive, total and transitive |
| Ordering.KeyLessStrictTotal | database/queries.py:358 | one sort key with direction and NULL placement is a strict total order |
| Ordering.RowLeTransitive | database/queries.py:358 | ordering rows by a list of keys is transitive |
| Ordering.InsertSorted | database/queries.py:15 | inserting a row into a sorted list keeps it sorted |
| Ordering.Sort | database/queries.py:15 | `ORDER BY` returns a permutation of the rows that is sorted by the keys |
| Ordering.FirstKeyDecides | database/queries.py:358 | a row that sorts strictly first on the first key precedes the other row |
| Criteria.TextCriterion | ui/entities_tab.py:174-178 | a text field is a criterion exactly when it is not blank, and then it is the stripped text |
| Criteria.TickerCriterion | ui/stocks_tab.py:191-197 | a ticker field is the stripped, upper-cased text, absent exactly when blank |
| Criteria.LikeParam | ui/entities_tab.py:177-178 | the `LIKE` parameter is NULL exactly when the criterion is absent |
| Criteria.LikeSlotMeaning | database/queries.py:13-14 | `(LOWER(c) LIKE LOWER(%s) OR %s IS NULL)` bound to a criterion is the case-insensitive text filter; the plain form is the case-sensitive one |
| Criteria.DateSlotMeaning | database/queries.py:151-152 | `(c >= %s OR %s IS NULL)` and `(c <= %s OR %s IS NULL)` are inclusive date bounds that vanish when the date is NULL |
| Criteria.EqualSlotMeaning | database/queries.py:150 | `(c = %s OR %s IS NULL)` is an equality filter that vanishes when the value is NULL |
| Criteria.TickerAsText | ui/search_tab.py:135-136 | the upper-cased ticker filters exactly as the typed text would |
| Queries.Run | database/db.py:36-51 | a list query fails exactly when psycopg2 refuses the tuple; with a full tuple it returns exactly the rows its WHERE clause keeps, each as often as stored, sorted by its keys; with no placeholder it returns every row |
| Queries.TextCount | database/queries.py:139-154 | a list query's text holds one placeholder per parameter its slots consume |
| Queries.RunAllInactive | database/queries.py:10-16 | with every criterion inactive a list query returns all its rows, sorted |
| Queries.ClientDepositsIgnoresClient | ui/deposits_dialog.py:121 | the per-client aggregate has no placeholder, so the client id is dropped and every client's row comes back |
| Queries.ReportListNeverLoads | ui/reports_dialog.py:256 | the ten-placeholder report list run with no parameters always fails |
| Queries.IntendedClientDepositsMeaning | ui/deposits_dialog.py:115-121 | the intended per-client list returns exactly the client's deposits, each as often as stored |
| Queries.IntendedReportList | ui/reports_dialog.py:250-256 | the report list run with every filter NULL returns every report, newest first |
| Queries.CheckKeeps | database/queries.py:29-34 | `col = %s AND (%s IS NULL OR id != %s)` keeps exactly the rows holding the value that are another record, or any such row for a new record |
| Queries.CheckExists | database/queries.py:134-136 | a uniqueness check finds a conflict exactly when some row conflicts |
| Queries.NeverConflictsWithSelf | database/queries.py:204-206 | with its own id given, a record never conflicts with itself |
| CombinedSearch.Distinct | database/queries.py:291 | `SELECT DISTINCT` keeps every row once and nothing else |
| CombinedSearch.SubJoin | database/queries.py:343-349 | the subquery's inner joins find a sale exactly when its stock and investor entity exist, linking it to the stock's emission |
| CombinedSearch.Trades | database/queries.py:291-317 | the sale branch lists exactly the output rows of the sales whose joined row the WHERE clause keeps, each once |
| CombinedSearch.Issuances | database/queries.py:321-356 | the emission branch lists exactly the emissions it keeps that no qualifying sale suppresses, each once |
| CombinedSearch.TextCount | database/queries.py:290-359 | the statement text holds one placeholder per parameter of its three parts |
| CombinedSearch.Execute | database/queries.py:319 | the statement runs exactly when psycopg2 accepts the tuple, and then returns the `UNION ALL` of both branches, each row as often as it occurs, sorted |
| CombinedSearch.Find | database/queries.py:302-309 | a `LEFT JOIN` lookup returns only a record of the table that carries the key |
| CombinedSearch.FindNone | database/queries.py:302-309 | a `LEFT JOIN` lookup finds nothing exactly when no record of the table carries the key, so the joined columns are NULL exactly then |
| CombinedSearch.ExecuteAsBound | database/db.py:42 | the statement fails exactly when psycopg2 would refuse the tuple, with psycopg2's message |
| CombinedSearch.Arities | database/queries.py:311-355 | the branches consume 14, 11 and 10 parameters, 35 in all |
| CombinedSearch.SearchCount | database/queries.py:290-359 | the combined statement holds exactly 35 placeholders |
| CombinedSearch.TradesFirst | database/queries.py:358 | in the sorted result every sale row (`'Сделка'`) precedes every emission row (`'Эмиссия'`) |
| CombinedSearch.DateTextDescending | database/queries.py:358 | `emission_date DESC` on `date::text` puts later dates first |
| CombinedSearch.UndatedLast | database/queries.py:358 | with `NULLS LAST` a dated row precedes an undated one |
| SearchTab.TupleAligned | ui/search_tab.py:154-196 | the 35-value tuple is exactly each slot of the statement bound to its criterion |
| SearchTab.TupleWidth | ui/search_tab.py:199-202 | the tuple has 35 values, split 14, 11 and 10 over the three parts |
| SearchTab.TradeMeaning | database/queries.py:311-317 | the sale branch's bound WHERE clause is the sale-side criteria |
| SearchTab.IssueMeaning | database/queries.py:334-340 | the emission branch's bound WHERE clause holds exactly when no investor or ticker criterion is given and the emitter, registrar and date criteria match |
| SearchTab.SubMeaning | database/queries.py:349-355 | the subquery's conditions are the sale-side criteria for a linked sale |
| SearchTab.CoveredMeaning | database/queries.py:341-356 | an emission is suppressed exactly when a sale of it, with stock and investor found, meets the sale-side criteria |
| SearchTab.UnionWanted | database/queries.py:290-359 | a row is in the union exactly when it is a wanted sale or a wanted, unsuppressed emission |
| SearchTab.SearchFinds | ui/search_tab.py:206-222 | the search with the screen's tuple always runs and returns exactly the wanted rows |
| SearchTab.GetSearchParams | ui/search_tab.py:112-204 | the parameter builder always succeeds, with the statement's slots bound to the form's criteria |
| SearchTab.PerformSearch | ui/search_tab.py:206-229 | no parameter or database error arises; a shown result is never empty |
| SearchTab.PerformSearchMeaning | ui/search_tab.py:222-229 | "nothing found" is reported exactly when no row is wanted; otherwise exactly the wanted rows are shown |
| SearchTab.SalesOnly | database/queries.py:334-338 | with an investor, INN or ticker criterion only sales are listed |
| SearchTab.ReadForm | ui/search_tab.py:140-150 | both date bounds are always present: they are the dates the editors show |
| SearchTab.ClearKeepsDates | ui/search_tab.py:99-107 | clearing empties the text criteria and keeps both date bounds as they were |
| SearchTab.InitialSearchOneDay | ui/search_tab.py:45-57 | searching from the screen as it opens finds only sales and emissions dated 2000-01-01 |
| SearchTab.IntendedReadForm | ui/search_tab.py:140-150 | under the intended reading a bound is absent exactly when its editor is on the blank minimum |
| SearchTab.IntendedClearedFindsAll | ui/search_tab.py:99-107 | with the intended reset and reading, a cleared form lists every sale and every emission with no sale whose stock and investor exist |
| PartyTabs.NameInnQueries | database/queries.py:10-16 | the entity, investor and emitter lists share the name and INN slots |
| PartyTabs.NameInnAligned | ui/entities_tab.py:177-180 | `(name, name, inn, inn)` is each slot bound to its criterion |
| PartyTabs.NameInnMeaning | database/queries.py:13-14 | the bound WHERE clause keeps exactly the rows matching the name and INN criteria |
| PartyTabs.LoadNameInn | ui/investors_tab.py:241-250 | the tab's query always runs and returns, in name order, exactly the matching rows, each as often as it is stored |
| PartyTabs.NameInnFilters | ui/emitters_tab.py:192-201 | with wildcard-free criteria, a row is listed exactly when its name contains the name text ignoring case and its INN contains the INN text |
| PartyTabs.NameInnBlankListsAll | ui/entities_tab.py:173-186 | with both fields blank every row is listed, in order |
| PartyTabs.PhoneCell | ui/entities_tab.py:203-205 | a missing or empty phone shows as `-`, any other phone as itself |
| PartyTabs.RegistrarAligned | ui/registrars_tab.py:161-172 | the six-value tuple is each registrar slot bound to its criterion |
| PartyTabs.RegistrarMeaning | database/queries.py:108-110 | the bound WHERE clause is the name, INN and licence-number filter |
| PartyTabs.RegistrarFilters | ui/registrars_tab.py:157-178 | with wildcard-free criteria a registrar is listed exactly when each field's text occurs in its column |
| PartyTabs.RegistrarsBlankListsAll | ui/registrars_tab.py:154-178 | with all fields blank every registrar is listed |
| PartyTabs.ExpiryRule | ui/registrars_tab.py:213 | a licence without an expiry date never expires; one expiring today is not expired; an expired licence stays expired later |
| PartyTabs.ExpiryText | ui/registrars_tab.py:203-207 | the expiry cell is `Бессрочно` exactly when there is no date, otherwise a `YYYY-MM-DD` text |
| PartyTabs.ExpiryTextFaithful | ui/registrars_tab.py:203-207 | two expiry cells are equal exactly when the dates are, and date cells sort like the dates |
| MarketTabs.StatusParam | ui/emissions_tab.py:64-66 | the status combo sends NULL for "all statuses", otherwise the flag for active |
| MarketTabs.EmissionAligned | ui/emissions_tab.py:223-234 | the ten-value tuple is each emission slot bound to its criterion |
| MarketTabs.EmissionMeaning | database/queries.py:148-152 | the bound WHERE clause is the emitter, registrar, status and date filter |
| MarketTabs.EmissionFilters | ui/emissions_tab.py:238-248 | with wildcard-free texts an emission is listed exactly when it meets every criterion given |
| MarketTabs.LoadEmissions | database/queries.py:153 | the emission query always runs and returns, newest registration first, exactly the matching emissions, each as often as it is stored |
| MarketTabs.ReadEmissionForm | ui/emissions_tab.py:199-217 | both registration-date bounds are always present: they are the dates the editors show |
| MarketTabs.EmissionsClearedListsRange | ui/emissions_tab.py:175-197 | after `clear_search` the tab lists exactly the emissions registered between the two dates still shown |
| MarketTabs.IntendedEmissionForm | ui/emissions_tab.py:199-217 | under the intended reading a bound is absent exactly when its editor is on the blank minimum |
| MarketTabs.IntendedEmissionsClearedListsAll | ui/emissions_tab.py:175-197 | with the intended reset and reading, blank texts and all statuses list every emission |
| MarketTabs.StockAligned | ui/stocks_tab.py:197-208 | the six-value tuple is each stock slot bound to its criterion |
| MarketTabs.StockMeaning | database/queries.py:181-183 | the bound WHERE clause is the ticker, emitter and emission filter |
| MarketTabs.StockUpperInvisible | ui/stocks_tab.py:191-193 | upper-casing the ticker field never changes which stocks are listed |
| MarketTabs.StockFilters | ui/stocks_tab.py:211-218 | with wildcard-free texts a stock is listed exactly when it meets every criterion given |
| MarketTabs.StocksBlankListsAll | ui/stocks_tab.py:190-209 | blank texts and no emission list every stock |
| MarketTabs.SellAligned | ui/sells_tab.py:211-220 | the eight-value tuple is each sale slot bound to its criterion |
| MarketTabs.SellMeaning | database/queries.py:216-219 | the bound WHERE clause is the investor, ticker and date filter |
| MarketTabs.SellsAlwaysBounded | ui/sells_tab.py:202-204 | the upper date is always sent, so every listed sale has a date no later than it |
| MarketTabs.SellUpperInvisible | ui/sells_tab.py:194-196 | upper-casing the stock field never changes which sales are listed |
| MarketTabs.SellFilters | ui/sells_tab.py:224-236 | with wildcard-free texts a sale is listed exactly when it meets every criterion |
| MarketTabs.ReadSellForm | ui/sells_tab.py:191-204 | the start bound is always present (the editor's date), the end bound always the end editor's date |
| MarketTabs.SellsClearedListsRange | ui/sells_tab.py:171-187 | after `clear_search` the tab lists exactly the sales dated from the start still shown up to today |
| MarketTabs.IntendedSellForm | ui/sells_tab.py:191-204 | under the intended reading the start bound is absent exactly when its editor is on the blank minimum |
| MarketTabs.IntendedSellsListUpTo | ui/sells_tab.py:171-187 | with the intended reading, blank texts and a blank start list exactly the sales dated up to the end date |
| TabActions.Enabled | ui/entities_tab.py:236-248 | a writing button is enabled only for an administrator; every other button needs a selection; adding a role needs a chosen entity |
| TabActions.NoWritesForUsers | ui/entities_tab.py:241-248 | for a non-administrator, exactly the non-writing buttons with a selection are enabled |
| TabActions.AdminEnablesAll | ui/investors_tab.py:291-306 | becoming administrator never disables a button, and enables every one whose selection needs are met |
| TabActions.GoToAddSell | ui/investors_tab.py:337-356 | the jump to a new sale happens exactly when an investor is selected and the sale tab is reachable, carrying that investor |
| TabActions.AddInvestor | ui/investors_tab.py:383-409 | an investor is added exactly when an administrator confirms with an entity chosen (a falsy id is refused) |
| TabActions.AddEmitter | ui/emitters_tab.py:260-282 | an emitter is added exactly when an entity is chosen and confirmed; the method itself does not test the role |
| TabActions.EmitterAddGatedByButton | ui/emitters_tab.py:183-196 | since the add button is enabled only for an administrator, the two tabs add roles alike |
| TabActions.DeleteEmitter | ui/emitters_tab.py:307-328 | removal happens exactly when an emitter is selected and the deletion is confirmed |
| TabActions.AddSell | ui/sells_tab.py:333-360 | the sale dialog opens exactly for an administrator, with the investor passed on |
| TabActions.JumpPreselects | ui/sells_tab.py:333-353 | an administrator's jump opens the sale dialog preselecting that investor |
| TabActions.ListDialogEditable | ui/reports_dialog.py:306-309 | the edit and delete buttons of a list dialog are enabled exactly when something is selected (also ui/employees_dialog.py:240-243) |
| TabActions.WindowSelection | ui/table_windows/base_table_window.py:124-136 | edit and delete exist only for an administrator, and they and every navigation button follow the selection |
| TabActions.AddNavigationButton | ui/table_windows/base_table_window.py:115-122 | a new navigation button is disabled and goes just before the trailing stretch, keeping the rest |
| TabActions.NavigationRowShape | ui/table_windows/base_table_window.py:105-122 | the navigation row is the caption, the buttons in insertion order, then the stretch |
| TableView.SearchInTable | ui/table_windows/base_table_window.py:161-171 | a row is hidden exactly when no present cell's lower-cased text contains the lower-cased search text |
| TableView.EmptySearchShowsFilledRows | ui/table_windows/base_table_window.py:163-171 | an empty search shows exactly the rows holding at least one item |
| TableView.SearchIgnoresCase | ui/table_windows/base_table_window.py:163 | the case of the typed text never matters |
| WindowQueries.ChainCount | ui/clients_tab.py:144-158 | the text built by appending conditions holds one placeholder per appended parameter |
| WindowQueries.Execute | database/db.py:42-51 | a built query runs exactly when psycopg2 accepts the parameters, and then returns the kept rows, each as often as stored, sorted |
| WindowQueries.ClientPart | ui/clients_tab.py:148-156 | a blank field adds nothing; a filled one adds one condition and one `%text%` value, which together are that field's text filter |
| WindowQueries.ClientsCount | ui/clients_tab.py:144-160 | the client query always has as many placeholders as values |
| WindowQueries.ClientsMeaning | ui/clients_tab.py:148-156 | the appended conditions keep exactly the clients matching every filled field |
| WindowQueries.ClientFilters | ui/clients_tab.py:135-161 | with wildcard-free texts a client is listed exactly when each filled field's text occurs in its column |
| WindowQueries.LoadClients | ui/clients_tab.py:158-161 | the client query always runs and returns, ordered by last then first name, exactly the matching clients, each as often as it is stored |
| WindowQueries.ClientsBlankListsAll | ui/clients_tab.py:136-158 | with all fields blank the bare query runs and lists every client |
| WindowQueries.SentinelMeaning | ui/table_windows/deposits_window.py:242-243 | `(c = %s OR %s = 'Все ...')` holds when the value is the sentinel or equals the column |
| WindowQueries.BetweenMeaning | ui/table_windows/deposits_window.py:244 | `BETWEEN a AND b` on numbers is inclusive at both ends |
| WindowQueries.ContextPart | ui/table_windows/deposits_window.py:247-248 | the owner condition is appended with the id text exactly when that text is truthy (not `None`, not empty), and then keeps the rows whose id the text spells |
| WindowQueries.CellContext | ui/table_windows/clients_window.py:119-134 | a window opened from a table row gets `str(id)` for any id, 0 included: the owner condition is appended, keeps exactly that id's rows, and a deposit may be added |
| WindowQueries.DepositsMeaning | ui/table_windows/deposits_window.py:238-264 | the deposit window's tuple fits its text and keeps exactly the deposits matching type, status, amount range and owner |
| WindowQueries.AddDepositRecord | ui/table_windows/deposits_window.py:284-290 | a deposit can be added exactly when the window holds a non-empty client id text, and then for that client |
| WindowQueries.PatternOrEmpty | ui/table_windows/documents_window.py:197 | a typed text becomes `%text%`; an empty one becomes the empty string, which switches the filter off |
| WindowQueries.DocumentsMeaning | ui/table_windows/documents_window.py:182-202 | the document window keeps exactly the documents whose passport contains the text, with the status and owner chosen |
| WindowQueries.TransactionsMeaning | ui/table_windows/transactions_window.py:190-215 | the transaction window keeps exactly the operations of the chosen type, within the amount range, of the deposit it was opened for |
| WindowQueries.ReportsMeaning | ui/table_windows/reports_window.py:396-417 | the report window keeps exactly the reports whose employee and client last names contain the typed texts, ignoring case |
| WindowQueries.ReportsIgnoreEmployee | ui/table_windows/reports_window.py:412-417 | the id the window was opened for never enters the query |
| PhoneSearch.ClientsWindowConds | ui/table_windows/clients_window.py:147-165 | a given client id gives only the id condition; otherwise a last-name condition when typed and a phone condition when digits were typed |
| PhoneSearch.ClientsWindowCount | ui/table_windows/clients_window.py:140-169 | the client window's query holds as many placeholders as values |
| PhoneSearch.EmployeesWindowConds | ui/table_windows/employees_window.py:155-175 | as for clients, but the phone condition is added whenever the field differs from its initial text |
| PhoneSearch.EmployeesWindowCount | ui/table_windows/employees_window.py:146-179 | the employee window's query holds as many placeholders as values |
| PhoneSearch.MaskTextHasDigit | ui/table_windows/clients_window.py:96-99 | a text under the mask `+7 (999) 999-99-99` always holds a digit, its literal `7` first |
| PhoneSearch.PhoneWindowsAgree | ui/table_windows/employees_window.py:165-175 | on every text the mask lets through, the two windows add the phone condition in the same cases and send the same values |
| PhoneSearch.PhonePattern | ui/table_windows/clients_window.py:161-164 | the pattern is `%`, then `[^0-9]*d` for each digit, then `%` |
| PhoneSearch.PatternRender | ui/table_windows/clients_window.py:160-165 | the text sent is the rendering of the regular expression parsed from it |
| PhoneSearch.PatternNeedsPercent | ui/table_windows/clients_window.py:160-165 | with `~`, the pattern matches only a value that holds a `%` |
| PhoneSearch.StoredPhoneNeverFound | ui/table_windows/employees_window.py:170-175 | a phone stored as the mask writes it is never found, whatever digits are typed |
| PhoneSearch.IntendedMatches | ui/table_windows/clients_window.py:157-165 | without the `%` the pattern matches exactly the values whose digits contain the typed digits in a row |
| PhoneSearch.IntendedFindsShownDigits | ui/table_windows/clients_window.py:158-165 | with the corrected pattern, a phone containing the typed digits is found whatever surrounds them |
| PhoneSearch.IntendedFindsTypedPrefix | ui/table_windows/clients_window.py:157-165 | with the corrected pattern, a partly typed phone finds every phone whose digits begin with the digits typed so far |
| Forms.Failing | ui/entity_dialog.py:124-136 | the error list holds exactly the messages of the failing checks, and is empty exactly when none fails |
| Forms.ReadEntity | ui/entity_dialog.py:113-119 | every field is stripped, and a blank phone becomes `None` |
| Forms.EntityValidIff | ui/entity_dialog.py:124-133 | the entity form passes exactly when the name and address are filled and the INN has 10 or 12 digits |
| Forms.EntityFocus | ui/entity_dialog.py:138-145 | the focus goes to a failing field, and to none when only the INN format fails |
| Forms.InnConflict | ui/entity_dialog.py:152-161 | the INN query runs only for a changed INN, and reports a conflict exactly when another entity holds it |
| Forms.PhoneConflict | ui/entity_dialog.py:162-171 | the phone query runs only for a filled, changed phone, and reports a conflict exactly when another entity holds it |
| Forms.DuplicateList | ui/entity_dialog.py:148-179 | the uniqueness messages name exactly the values that are taken |
| Forms.EntityVerdict | ui/entity_dialog.py:121-197 | the dialog accepts exactly when the form is valid, the database is reachable and neither INN nor phone is taken |
| Forms.EntityUnchangedSkipsChecks | ui/entity_dialog.py:153-163 | with unchanged INN and phone the database contents never matter |
| Forms.ReadPerson | ui/client_dialog.py:78-83 | the three fields are stripped |
| Forms.PersonValidIff | ui/client_dialog.py:88-95 | the person form passes exactly when both names are filled and the phone has 12 characters once separators are removed |
| Forms.PersonVerdict | ui/client_dialog.py:85-125 | a client or employee is accepted exactly when the form is valid and the phone is unchanged or free (also ui/employees_dialog.py:93-130) |
| Forms.PersonUnchangedPhoneOffline | ui/client_dialog.py:101-102 | a valid form with an unchanged phone is accepted even when the database is unreachable |
| Forms.FilledMaskValid | ui/client_dialog.py:43 | every completely filled phone mask passes the phone rule |
| Forms.DocumentData | ui/document_dialog.py:102-111 | the seven values follow the insert's column order, with the passport and word stripped and the status spelled out |
| Forms.DocumentValidIff | ui/document_dialog.py:113-131 | a document passes exactly when the passport has 10 characters besides spaces, the word and client are given, the birth date is past and the agreement is not in the future |
| Forms.BornTodayRejected | ui/document_dialog.py:124-125 | a birth date of today is refused |
| Forms.AgreementTodayAllowed | ui/document_dialog.py:126-127 | an agreement dated today is accepted |
| Forms.ToggleExpiry | ui/registrar_dialog.py:78-83 | the expiry editor is enabled exactly when "no expiry" is off, and toggling keeps the date it shows |
| Forms.ReadRegistrar | ui/registrar_dialog.py:191-206 | the entity comes from the record when editing, the licence is stripped, and the expiry is absent exactly when "no expiry" is ticked, else the date shown |
| Forms.RegistrarValidIff | ui/registrar_dialog.py:208-220 | the registrar form passes exactly when the entity is known (new records) and the licence is filled; the missing-expiry error never fires |
| Forms.RecheckKeepsDate | ui/registrar_dialog.py:78-83 | ticking and unticking "no expiry" brings back the date shown before, which is then stored without complaint |
| Forms.IntendedToggleExpiry | ui/registrar_dialog.py:78-83 | the intended reset: ticking "no expiry" puts the editor on its blank minimum |
| Forms.IntendedReadRegistrar | ui/registrar_dialog.py:196-206 | under the intended reading the expiry is absent exactly when "no expiry" is ticked or the editor is blank |
| Forms.IntendedRegistrarValidIff | ui/registrar_dialog.py:208-220 | with the intended reading the form also demands a non-blank date unless "no expiry" is ticked |
| Forms.IntendedRecheckDemandsDate | ui/registrar_dialog.py:78-83 | with the intended reset and reading, unticking "no expiry" again makes the form demand a date |
| Forms.RegistrarVerdict | ui/registrar_dialog.py:208-265 | a registrar is accepted exactly when the form is valid and the licence is unchanged or free |
| Forms.ReadStock | ui/stock_dialog.py:168-176 | the ticker is stripped and upper-cased, and is empty exactly when the field is blank |
| Forms.StockFocus | ui/stock_dialog.py:190-198 | the focus goes to the first failing field, and to none exactly when nothing fails |
| Forms.StockVerdict | ui/stock_dialog.py:178-233 | a stock is accepted exactly when the form is valid and the ticker is unchanged or free |
| Forms.StockUnchangedTicker | ui/stock_dialog.py:204-205 | a valid stock with its original ticker is accepted without consulting the database |
| Deposits.StatusLabel | ui/deposits_dialog.py:154-159 | known statuses get their Russian label, any other status shows as stored |
| Deposits.ShownOpenIff | ui/deposits_dialog.py:183-184 | a row shows as open exactly when its stored status is `open` (or is the label itself) |
| Deposits.SelectionButtons | ui/deposits_dialog.py:179-196 | edit, close, early close and top-up follow "selected and open", history follows the selection alone |
| Deposits.OnlyOpenDepositsChange | ui/deposits_dialog.py:186-189 | a closed deposit can never be edited, closed or topped up |
| Deposits.DepositErrors | ui/deposit_dialog.py:168-186 | the error list holds exactly the failing checks, in the order the checks run |
| Deposits.AcceptIff | ui/deposit_dialog.py:172-183 | a deposit is accepted exactly when the amount is positive, the rate not negative, the opening not in the future, the closing after the opening and a client is given |
| Dates.DecimalRoundTrip | ui/deposit_dialog.py:163 | the term's decimal text reads back as the term |
| Deposits.TermText | ui/deposit_dialog.py:163 | the interval text is the month count followed by ` months` |
| Deposits.GetData | ui/deposit_dialog.py:156-166 | the eight values follow the insert's column order |
| Deposits.EditAligned | ui/deposits_dialog.py:253-257 | the update sends the form's first seven values in column order, then the deposit's id, and never the client |
| Deposits.AddDeposit | ui/deposits_dialog.py:204-231 | a deposit is opened exactly when the dialog is confirmed, valid and nothing fails; it gets a fresh id and an opening journal entry; otherwise nothing changes |
| Deposits.AddKeepsLedger | ui/deposits_dialog.py:211-226 | opening a deposit keeps every balance equal to its credited journal entries |
| Deposits.EditDeposit | ui/deposits_dialog.py:243-260 | an edit changes only the selected deposit's fields, never the journal or the set of deposits |
| Deposits.EditLedgerIff | ui/deposits_dialog.py:243-260 | an edit keeps balances equal to their credits exactly when it keeps the amount |
| Deposits.EditKeepsLedger | ui/deposits_dialog.py:243-260 | an edit that keeps the stored amount, or does not commit, keeps the ledger invariant |
| Deposits.ClosingKind | ui/deposits_dialog.py:311 | a closing is journalled as `early closing` or `closing`, never as a credit |
| Deposits.CloseDeposit | ui/deposits_dialog.py:274-316 | a deposit is closed exactly when it is selected, exists and the closing is confirmed; its status is set and one closing entry is journalled; `NotFound` stands for an exception the slot does not catch |
| Deposits.CloseButtonsDiffer | ui/deposits_dialog.py:268-272 | the two close buttons journal `closing` and `early closing` |
| Deposits.CloseKeepsLedger | ui/deposits_dialog.py:300-314 | closing keeps the ledger invariant |
| Deposits.AddMoney | ui/deposits_dialog.py:327-356 | a top-up adds the amount to the selected deposit and journals one `addition` |
| Deposits.TopUpKeepsLedger | ui/deposits_dialog.py:338-354 | a top-up keeps the ledger invariant |
| Deposits.LedgerHolds | ui/deposits_dialog.py:204-366 | any sequence of opening, closing, top-up of listed deposits and amount-keeping edits keeps ids fresh and balances equal to their credits |
| Deposits.EditBreaksLedger | ui/deposits_dialog.py:243-260 | one opening of 100 followed by an edit to 250 leaves a balance its journal does not explain |
| Pickers.FindData | ui/sell_dialog.py:214-237 | `findData` returns the first entry holding the data, or -1 exactly when none does |
| Pickers.LoadCombo | ui/sell_dialog.py:95-153 | a list loads exactly when its query succeeds with rows; the combo is then enabled, with a placeholder first and one entry per row; an unloaded combo offers no data |
| Pickers.LoadedIdsFound | ui/sell_dialog.py:214-216 | every loaded id can be found past the placeholder |
| Pickers.UnloadedOffersNothing | ui/emission_dialog.py:75-130 | whatever is selected in a combo that did not load, it offers no data |
| Pickers.LoadPair | ui/sell_dialog.py:151-153 | the dialog is usable exactly when both lists loaded, and each combo is enabled exactly when its list loaded |
| Pickers.PreselectInvestor | ui/sell_dialog.py:155-192 | a preselected investor present in the list is selected and the combo locked; otherwise the dialog warns and nothing is locked |
| Pickers.ListedInvestorLocked | ui/sell_dialog.py:155-175 | an investor from the loaded list is always selected and locked |
| Pickers.SelectOrInsert | ui/sell_dialog.py:214-237 | the stored id becomes the current data, inserting a placeholder entry only when the list lacks it |
| Pickers.LoadSale | ui/sell_dialog.py:194-256 | loading succeeds exactly when the sale is found; the investor combo is then locked and both combos show the stored ids; otherwise nothing changes |
| Pickers.OpenSaleDialog | ui/sell_dialog.py:42-53 | a new sale is usable exactly when both lists loaded; an existing sale exactly when it loads, and then the investor is locked |
| Pickers.SaleFocus | ui/sell_dialog.py:311-322 | the investor gets the focus exactly when it is missing |
| Pickers.SaleFocusFirst | ui/sell_dialog.py:293-325 | the focus is on the field of the first error, and on none exactly when there is no error |
| Pickers.SaleValidIff | ui/sell_dialog.py:293-310 | a sale passes exactly when investor and stock are chosen and quantity and price are positive |
| Pickers.ReadEmission | ui/emission_dialog.py:224-230 | the emitter and registrar are the combos' current data |
| Pickers.EmissionValidIff | ui/emission_dialog.py:232-257 | an emission passes exactly when emitter and registrar are chosen and the value is positive; the focus goes to the first failing field |
| Pickers.EmptyEmittersRefused | ui/emission_dialog.py:32-38 | with an empty emitter list the dialog is unusable and any form read from it fails |
| Pickers.EmissionAligned | ui/emissions_tab.py:336-343 | the insert and the update send each emission column its form value, the update then the id (ui/emissions_tab.py:384-391) |
| Pickers.Truncate | ui/reports_dialog.py:293-296 | a report longer than 100 characters shows its first 97 and `...`; a shorter one shows unchanged |
| Pickers.TruncateStable | ui/reports_dialog.py:294-295 | truncating twice is truncating once, and the kept prefix is the content's own |
| Pickers.TruncateForgetsTail | ui/reports_dialog.py:294-295 | two reports agreeing on their first 97 characters, both longer than 100, show the same |
| Pickers.TypeLabel | ui/reports_dialog.py:282-288 | the four journal kinds get their labels, any other kind shows as stored |
| Pickers.JournalKindsLabelled | ui/deposits_dialog.py:223 | every kind the deposit journal writes is one the report labels cover |
| Pickers.TypeLabelsDistinct | ui/reports_dialog.py:282-288 | different journal kinds get different labels, and no label is itself a journal kind |
| Pickers.ReportValidIff | ui/reports_dialog.py:152-176 | a report passes exactly when its stripped content is filled and a truthy transaction and employee are chosen |
| Pickers.ZeroIdDiffers | ui/reports_dialog.py:160-176 | an id of 0 passes the sale checks (`is None`) but fails the report checks (`not id`) |

## Left out

- Wildcards in search texts: no screen escapes `%` or `_` in the text it
  wraps in `%...%`. The lemmas that equate a `LIKE` filter with substring
  containment therefore require wildcard-free criteria (`Literal`). The
  slot-level meaning lemmas hold for every text.
- Database I/O, connections, commits and rollbacks: a query is a function
  of the rows its joins produce. The FROM/JOIN part of a list query is
  taken as given, except in the combined search, where the joins are
  modelled.
- Faults: a failing connection or statement is a `Fault` parameter of the
  deposit transitions. Message boxes and captions are parameters or left
  out. Combo captions are parameters.
- Floating point, `Decimal` quantisation and the 30.44-day term arithmetic
  of the deposit dialog: amounts are `real`, and the term is a month count.
- Python's `isdigit`, `lower` and `upper` are modelled for ASCII and basic
  Cyrillic letters only. String order is code-point order, which is a
  collation assumption.
- POSIX regular expressions: only the fragment the phone search builds is
  parsed and matched (`[^0-9]*`, digits and literal characters).
- The server's conversion of an id text to an integer is modelled only
  for texts written by `str()` of an integer, the only ones the table
  windows pass. Texts such as `"07"`, `" 7"` or `"abc"` are not modelled.
- Schema constraints, foreign keys and cascades: uniqueness is modelled
  only through the checks the dialogs run. `CombinedSearch.Find` takes the
  first record that carries a key. A `LEFT JOIN` on a non-unique key yields
  one row per match, so the modelled joins are faithful only when each join
  key is unique in its table. The joins use the tables' `*_id` columns;
  the schema that declares them is not part of this model.
- The transaction dialog, the analytics and statistics screens, the login
  and the main window: these are outside the modelled core.
- The report dialog's list query and the deposits dialog's per-client
  query are modelled as the calls they make (see Findings). The cells those
  screens fill are modelled (`Pickers.Truncate`, `Pickers.TypeLabel`,
  `Deposits.StatusLabel`), but rows are column maps, so reading `rep[7]`
  and `rep[8]` past the end of the 7-column report select is not modelled.
  The report call is modelled with an empty tuple, which psycopg2 refuses.
  As written, `execute` is called with no tuple at all; psycopg2 then sends
  the text unformatted and the server rejects the `%s`. The effect is the
  same failure.
- The deposits dialog's use of the aggregate rows as deposits is not
  modelled; the model stops at the rows the query returns. As written, the
  aggregate returns at least the selected client's own row. On that first
  row, `float(dep[1])` applied to a last name raises `ValueError`. If the
  last name happens to parse, `dep[3].strftime` applied to a sum raises
  `AttributeError`. Neither is a `psycopg2.Error`, so the exception leaves
  the constructor and the dialog never opens. The `Deposits` transitions
  therefore model handlers no user can reach in this version.
- Deposits.CloseDeposit: its `NotFound` outcome stands for
  `raise Exception("Вклад не найден")`. The slot catches only
  `psycopg2.Error`, so this is an uncaught exception rather than a handled
  outcome. In the model the bank is unchanged either way.
- Deposits.LedgerHolds: holds only for edits that keep the amount. An
  edit that changes it writes no journal entry, and `EditBreaksLedger`
  shows the invariant then fails. The dialog allows such edits.
- PartyTabs.ExpiryText: renders every date with a four-digit year.
  CPython's `strftime("%Y")` on glibc writes a year below 1000 without
  padding. The registrar dialog cannot store such a date, because its
  minimum is 1990-01-01, but a row written outside the application could
  hold one.
- Qt's `QDate.currentDate()` is a parameter (`today`), and the editors'
  maximum dates are not modelled.
- Pickers.SelectOrInsert: requires the combo to hold its placeholder entry,
  which every loaded combo does. Qt's `insertItem` into an empty combo is
  not modelled.
- TabActions.Enabled: the tabs' initial button states before any selection
  are not modelled separately; they coincide with "nothing selected".
- SearchTab.PerformSearch: the result table's header map and the
  `strftime` formatting are presentation only.
- CombinedSearch.Execute: states the result as a permutation of the union,
  sorted. Which of several rows tying on every key comes first is left
  open, as PostgreSQL leaves it.

## Findings

| source | as written | input that shows it | evidently intended | confidence | as-written member | corrected member |
|---|---|---|---|---|---|---|
| ui/table_windows/clients_window.py:161-164 | the digit pattern for the POSIX `~` operator is wrapped in `'%'` as if it were a `LIKE` pattern; to `~`, `%` is an ordinary character | the field showing `+7 (999` against a stored phone `+7 (999) 123-45-67`: the digits are `7999`, and the pattern `%[^0-9]*7[^0-9]*9[^0-9]*9[^0-9]*9%` needs a literal `%`, which no phone holds | the pattern without the two `%`, matching any phone whose digits contain the typed digits in a row (also ui/table_windows/employees_window.py:170-173) | not executed | PhoneSearch.StoredPhoneNeverFound | PhoneSearch.IntendedMatches |
| ui/search_tab.py:49, 55, 106-107 | the date editors are "emptied" with `setDate(QDate())`, which Qt ignores; the editors stay on 2000-01-01 (or the last chosen day), so the search always filters by a period | opening the screen and searching with all fields blank finds only the sales and emissions dated 2000-01-01 | a blank editor (its minimum 1990-01-01, shown as `" "`) means no bound, and clearing puts the editors there | not executed | SearchTab.InitialSearchOneDay | SearchTab.IntendedClearedFindsAll |
| ui/emissions_tab.py:75, 186-187 | the same ignored resets: the start filter keeps 2000-01-01 or the last chosen day, the end filter today or the last chosen day | after "clear", an emission registered on 1999-05-01 is not listed | clearing lists every emission | not executed | MarketTabs.EmissionsClearedListsRange | MarketTabs.IntendedEmissionsClearedListsAll |
| ui/sells_tab.py:64, 181 | the start editor's reset is ignored, so the start filter is always active | after "clear", a sale dated 1999-05-01 is not listed | clearing lists every sale up to today | not executed | MarketTabs.SellsClearedListsRange | MarketTabs.IntendedSellsListUpTo |
| ui/registrar_dialog.py:55, 83, 196-216 | ticking "no expiry" does not clear the date, and `date()` is always valid, so the "expiry missing" error can never fire | open the dialog, untick "no expiry", press OK: the licence is stored as expiring on 2000-01-01 | the blank minimum date means "no date" and the dialog demands one | not executed | Forms.RecheckKeepsDate | Forms.IntendedRecheckDemandsDate |
| ui/deposits_dialog.py:121 | the client id is passed to `GET_CLIENT_DEPOSITS`, which has no placeholder; psycopg2 drops it and every client's aggregate row comes back | any client: the dialog receives one aggregate row per client, including the selected client's, instead of that client's deposits; reading the first row as a deposit raises `ValueError` at `float(dep[1])` on the last name (or `AttributeError` at `dep[3].strftime`), which escapes `__init__`, so the dialog never opens | a query on `Deposit` filtered by `client_id = %s` | not executed | Queries.ClientDepositsIgnoresClient | Queries.IntendedClientDepositsMeaning |
| ui/reports_dialog.py:256 | `GET_ALL_REPORTS` holds ten placeholders but is executed without parameters | opening the reports dialog: the list never loads | the ten filter values, all NULL, returning every report | not executed | Queries.ReportListNeverLoads | Queries.IntendedReportList |
