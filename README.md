# Strep A research literature database: a verified model

This project models the rules at the heart of the Strep A research literature database, a Django
site where contributors import, draft and approve studies and their results, and where readers
browse, filter and export them. The model covers:

- **Import** (`Importer`): reading spreadsheet cells against a field schema (choices, null tokens,
  length limits, decimals, positive integers, booleans), the per-row field errors and warning, the
  link from a result row to exactly one approved study, and the numbered import log written onto the
  import source.
- **Records** (`Studies`, `Results`, `Users`): approval state, ownership, the managers that split
  studies into approved and draft ones, the age and observation-time texts, the access levels as
  the raw strings the code compares, and account creation.
- **Permissions** (`Permissions`, `StudyAdmin`, `SiteAdmin`, `AdminSite`): the super, all and owner
  routes of the admin classes, the study admins' field hiding, locking, approve and revert actions
  and saving, the user form, request and dataset admins, the backup selection, and the admin site's
  entry rule, index ordering, app index context and URL order.
- **Filters** (`Filters`): parameter consumption, the numeric range filter, and the multiple-choice
  filter's choices, selection and queryset.
- **Exports** (`Actions`, `Exporter`): the CSV export action's column choice, labels and cell
  values along a lookup path, and the Excel worksheet's cells, drop-down validations and autofilter.
  A drop-down list is stored as its labels joined by ',' and only when that text fits in 255
  characters: the Disease and Data_source columns get none, and the Age_general drop-down offers
  the label "Children, adolescents and young adults" as two entries, the second of which the
  importer refuses.
- **Browser widgets** (`FilterWidget`, `SelectWidget`): the list filter's multiple-select widget as
  a class with committed and pending flags per item, its open, close, select-all, Cancel and OK
  transitions, and the query strings its pages build, for both the current and the earlier widget.

Helper modules: `Wrappers` (Option and Result), `Strings` (ASCII case, Python `strip`, `join`,
`split`, decimal text and Python's text order), `Values` (cell values and Python's `str`),
`Numbers` (integer and decimal parsing), `Quoting` (the admin's key quoting), `Sorting` (sorting by
a total preorder), `Lists` (list removal) and `Schema` (fields and their kinds).

Querysets are sequences of records passed in; the tables that bulk actions update are fields of a
class. The current time, the requesting user and the database contents are parameters.

## Model

| member | source | states |
|---|---|---|
| Numbers.ParseInt | database/importer.py:109 | text is read as an integer exactly when, after stripping whitespace and an optional sign, a run of digits remains in which single underscores may separate digits; the value is that of the digits, negated after a minus |
| Numbers.ParseIntStr | database/importer.py:109 | the decimal text of any integer reads back as that integer |
| Numbers.GroupedDigits | database/importer.py:109 | an underscore between two groups of digits is accepted and does not change the number read |
| Numbers.UnderscoreMisplaced | database/importer.py:109 | a doubled, leading or trailing underscore makes the text unreadable as an integer |
| Numbers.ParseDecimal | database/importer.py:102 | text reads as a number exactly when, after stripping whitespace and one optional sign, it is a digit part, or a single point with an optional digit part on each side and digits on at least one; the value is the signed digits of both sides, with one place per fraction digit written |
| Numbers.ParseDecimalSpelled | database/importer.py:102 | every spelling Python's float accepts in this form reads as its value: surrounding whitespace, a '+' or '-' sign, an empty whole or fraction side, leading zeros and underscore groups |
| Numbers.SpelledDecimal | database/importer.py:102 | a text spelled as whitespace, sign, whole part, point, fraction part and whitespace reads as the value those parts give |
| Numbers.GroupedSpelledDecimal | database/importer.py:102 | an underscore between two digit groups of the whole part leaves the value read unchanged |
| Numbers.EmptyWholeSpelling | database/importer.py:102 | ".5" reads as 5 with one place |
| Numbers.EmptyFractionSpelling | database/importer.py:102 | "5." reads as 5 with no places |
| Numbers.SignedSpelling | database/importer.py:102 | "+1.50" reads as 150 with two places |
| Numbers.GroupedSpelling | database/importer.py:102 | " 1_0.25 " reads as 1025 with two places |
| Numbers.LeadingZeroSpelling | database/importer.py:102 | "01.5" reads as 15 with one place |
| Numbers.ParseDecimalOfInteger | database/importer.py:102-109 | text read as an integer reads as the same whole number as a decimal |
| Numbers.ParseDecimalStr | database/importer.py:102 | the decimal text of any decimal reads back as that decimal, whatever its sign and places |
| Numbers.PadDigitsValue | database/importer.py:102 | the fraction digits written for a decimal are exactly as many as its places and denote its fraction |
| Numbers.RoundDecimal | database/importer.py:103-104 | a value with more places is rounded to the given places within half a unit of the last place; one with fewer is unchanged |
| Numbers.ClampDecimal | database/importer.py:105-107 | the result never exceeds the bound; it is the value when the value is within the bound and the bound otherwise |
| Numbers.CoerceDecimal | database/importer.py:101-107 | the cell is stored exactly when it reads as a number; the stored value is the number read, rounded to the field's places when it has some and then capped at the digit limit when it has one, so it never exceeds that limit |
| Quoting.DecodeCode | database/filters.py:155-163 | every reserved character's escape is two characters that decode back to it, and '_' is reserved |
| Quoting.UnquoteQuote | database/filters.py:155-163 | unquoting a quoted code gives the code back |
| Quoting.QuoteDigits | database/models/methods.py:360 | a primary key written in digits is its own quotation |
| Values.PyStr | database/actions.py:29 | None, text and booleans print as Python prints them |
| Values.RoundHalfEven | database/importer.py:104 | the result is within half of the exact quotient and even on a tie |
| Values.TruncDiv | database/models/results.py:288 | the quotient truncated toward zero, with the remainder taking the sign of the dividend |
| Strings.LowerChar | database/importer.py:21 | upper-case ASCII letters move to lower case and every other character stays |
| Strings.Lower | database/importer.py:21 | lower-casing keeps the length and lower-cases each character |
| Strings.Join | database/importer.py:174 | joining nothing gives the empty text and joining one part gives that part |
| Strings.JoinLength | database/importer.py:174 | the joined text is as long as the parts plus one separator between each two |
| Strings.Find | database/actions.py:17-19 | the first position where the separator occurs, none before it, and none at all when nothing is found |
| Strings.Split | database/actions.py:18 | splitting gives at least one part, and joining the parts with the separator gives the text back |
| Strings.SplitJoin | database/filters.py:28-30 | joining parts free of the separator character and splitting again gives the parts back |
| Strings.ReplaceChar | database/importer.py:109 | each occurrence of the character is replaced and nothing else changes |
| Strings.RemoveChar | database/importer.py:109 | exactly the characters other than the removed one remain; text without it is unchanged |
| Strings.RemoveCharAppend | database/importer.py:109 | removal works piece by piece, so the remaining characters keep their order |
| Strings.StripSurrounded | database/importer.py:102 | whitespace around a text that neither starts nor ends with whitespace is stripped back to that text |
| Strings.IntStr | database/importer.py:143 | a natural number in digits, a negative one with a minus sign before its magnitude |
| Strings.NatStrValue | database/importer.py:143 | the digits written for a natural number denote that number |
| Strings.LexLeTotal | database/models/users.py:84-90 | any two texts are ordered one way or the other |
| Strings.LexLeAntisymmetric | database/models/users.py:84-90 | texts ordered both ways are equal |
| Strings.LexLeTransitive | database/models/users.py:84-90 | the text order is transitive |
| Strings.NotLessIsGe | database/models/users.py:84-90 | not being below a text is being at or above it |
| Sorting.Insert | database/admin_site.py:34 | insertion keeps every element and adds the new one |
| Sorting.SortBy | database/admin_site.py:34-38 | sorting keeps exactly the same elements |
| Sorting.SortByIsSorted | database/admin_site.py:34-38 | under a total preorder the sorted list is in order |
| Lists.RemoveFirst | database/admin/methods.py:112-115 | removing a present element drops exactly one occurrence; removing an absent one changes nothing |
| Lists.Without | database/admin/methods.py:112-115 | exactly the elements not named remain |
| Lists.RemoveEachIsWithout | database/admin/methods.py:112-115 | on a list without repeats, removing the names one at a time filters them all out |
| Schema.GetField | database/importer.py:72 | a found field is in the schema under that name; nothing is found only when no field has that name |
| Schema.Names | database/exporter.py:41-43 | the names of the fields in declaration order |
| Schema.GetFieldFindsEveryName | database/exporter.py:41-43 | every declared name is found |
| Schema.GetFieldAbsent | database/importer.py:72 | a name no field carries is not found |
| Importer.ParseBool | database/importer.py:17-27 | no text gives unknown; otherwise true exactly when the lower-cased text is a true token, false exactly when it is a false token |
| Importer.FormatBoolCharfield | database/importer.py:29-35 | the flag is written as one character |
| Importer.ParseFormatBool | database/importer.py:17-35 | parsing the character a boolean is written as gives back that boolean, unknown included |
| Importer.FieldDescriptions | database/importer.py:37-68 | exactly the schema's fields other than audit fields, relations and the key, each with its type text |
| Importer.SelectChoice | database/importer.py:76-79 | the chosen index is a valid choice |
| Importer.SelectChoiceIsFirstMatch | database/importer.py:76-79 | the chosen choice's display text or code matches the normalised cell, no earlier choice does, and nothing is chosen only when no choice matches |
| Importer.CoerceField | database/importer.py:74-118 | text fields store the cell as is; non-character fields store nothing for a null token; relations are refused with a message, as the relation test evidently intends (the test as written raises; see `Importer.CoerceFieldAsWritten`); a non-nullable boolean always stores a boolean or nothing |
| Importer.CoerceFieldAsWritten | database/importer.py:115 | as written, a cell that is no null token fails with an AttributeError exactly when it reaches the relation test, that is for relations and fields of other kinds; every other cell is coerced as intended |
| Importer.RelatedFieldFinding | database/importer.py:115 | for a relation or a field of another kind the code as written raises where the intended code refuses the relation or stores the text |
| Importer.ParseFieldValue | database/importer.py:70-72 | an unknown field name is the 'No such field exists' failure; a known one is coerced by its field |
| Importer.CharLengthBoundary | database/importer.py:86-95 | a plain character field refuses a value of its maximum length or longer and stores a shorter one unchanged |
| Importer.CharNullToken | database/importer.py:80-90 | a null token on a character field stores nothing when the field is nullable and fails as 'missing' otherwise |
| Importer.ChoiceCoercion | database/importer.py:75-85 | a choice field stores the code of the first matching choice; text matching no choice and no null token is 'not an allowed option' |
| Importer.BoolCoercion | database/importer.py:110-113 | a boolean cell stores its parsed value; an unknown stores nothing on a nullable field and false otherwise |
| Importer.PositiveIntegerRoundTrip | database/importer.py:108-109 | the decimal text of any integer is read back by a positive-integer field as that integer |
| Importer.PositiveIntegerCoercion | database/importer.py:108-109 | a positive-integer cell that is not a null token is the integer its text reads without commas, or a parse failure |
| Importer.PositiveIntegerDropsCommas | database/importer.py:109 | thousands separators are dropped before the integer is read |
| Importer.AssignedIff | database/importer.py:162-172 | a field is set exactly when its column is not skipped and the row's (last) cell for it coerces, and it is set to the coerced value |
| Importer.EntriesAssignedIff | database/importer.py:162-172 | over a list of entries, a field is set exactly when it is not skipped and one of its entries coerces |
| Importer.NoErrorsIff | database/importer.py:162-174 | a row has no field errors exactly when the (last) cell of every column it does not skip coerces |
| Importer.EntriesNoErrorsIff | database/importer.py:162-174 | over a list of entries, there are no errors exactly when every entry that is not skipped coerces |
| Importer.Warning | database/importer.py:174 | the row message is absent exactly when there are no field errors |
| Importer.ParseRowFields | database/importer.py:160-172 | the loop over the row's dictionary assigns exactly the coercible, unskipped entries and records exactly the failures |
| Importer.DictRow | database/importer.py:132 | the dictionary a CSV row becomes has at most one entry per cell |
| Importer.DictRowMeaning | database/importer.py:132 | each header appears once in the dictionary, with the last cell under it, and every header of the row appears |
| Importer.RepeatedHeaderKeepsLast | database/importer.py:132 | of two columns with the same header only the later cell is kept |
| Importer.StudiesRowOutcome | database/importer.py:158-174 | a study is always built, approved by the importer at the import time and tied to the import source |
| Importer.ImportCsvStudiesRow | database/importer.py:158-174 | the study carries the importer and import time as approval; a field is set exactly when its column is not skipped and its cell coerces, to the coerced value; the message is absent exactly when every other column coerces |
| Importer.RowGet | database/importer.py:193 | a row holds a value for a column exactly when some cell has that header |
| Importer.WithIdentifier | database/importer.py:195 | exactly the approved studies with that spreadsheet identifier |
| Importer.WithPk | database/importer.py:196-201 | exactly the approved studies with that primary key |
| Importer.LinkCandidates | database/importer.py:195-201 | only approved studies; the identifier match wins whenever there is one |
| Importer.IdentifierLookup | database/importer.py:195 | the lookup by spreadsheet identifier fails with a field error exactly when the study schema does not declare the identifier, and otherwise finds the approved studies that carry it |
| Importer.IdentifierFinding | database/importer.py:158-195 | with the declared study model a row's identifier cell is reported as an unknown field and never stored, and the lookup fails; with the identifier declared the cell is stored and the lookup succeeds |
| Importer.UnknownColumnWarned | database/importer.py:162-172 | a column no field is named after gives a field error and sets nothing |
| Importer.CharColumnStored | database/importer.py:162-172 | a plain character column whose cell is no null token and fits is stored as the cell text |
| Importer.ResultsRowAsWritten | database/importer.py:177 | the result row parser as written always fails: the result model takes no provenance keywords |
| Importer.ResultsRowOutcome | database/importer.py:176-215 | a missing or blank study key gives no result and the missing-key message; otherwise a single approved candidate study gives a result linked to it with the field errors as warning, none gives the not-found message and several the multiple-studies message, after the field errors |
| Importer.ImportedResultIsListed | database/importer.py:193-210 | every imported result belongs to an approved study and is listed by the results manager |
| Importer.ImportCsvResultsRow | database/importer.py:176-215 | the method computes the row outcome, and a built result's study is approved |
| Importer.LogLine | database/importer.py:141-146 | a row without an instance logs an error line with its number, key and message; a row with an instance and a message logs a warning line with that message; a row with an instance and no message logs nothing |
| Importer.Instances | database/importer.py:148-149 | never more instances than rows |
| Importer.AllBuiltIff | database/importer.py:142-152 | the import status is true exactly when every row built an instance |
| Importer.EmptyLogIff | database/importer.py:141-146 | the log is empty exactly when every row built an instance and had no message |
| Importer.ImportSource.ImportCsvFile | database/importer.py:129-156 | the instances are those built, in row order; status, log and row count are recorded on the import source and nothing else of it changes |
| Importer.ReadRows | database/importer.py:134-149 | the loop's instances, status and log equal their definitions over all rows |
| Users.LevelsStrictlyIncreasing | database/models/users.py:41-45 | the declared levels are in strictly increasing text order, disabled lowest and superuser highest |
| Users.AtLeastDeclared | database/models/users.py:41-45 | between declared levels the text comparison agrees with their position in the list |
| Users.IsActiveForDeclaredLevels | database/models/users.py:82-84 | for a declared level an account is active exactly when it is not disabled and its address is verified |
| Users.IsActiveMonotone | database/models/users.py:82-84 | raising an active user's level keeps the account active |
| Users.HasPerm | database/models/users.py:89-91 | true exactly for levels at or above the superuser level, and otherwise nothing; never an explicit refusal |
| Users.HasPermOnlySuper | database/models/users.py:89-91 | among the declared levels only the superuser level is granted |
| Users.HasModulePerms | database/models/users.py:93-94 | every app is visible to every user |
| Users.UserStr | database/models/users.py:86-87 | the text is the first and last names followed by the address in angle brackets |
| Users.DefaultAsWrittenOutranksSuperuser | database/models/users.py:55 | the declared default 'readonly' sorts above the superuser level, so a user left at it passes the superuser check |
| Users.DefaultIsReadOnly | database/models/users.py:55 | with the read-only level as default a new user is not a superuser, is active exactly when verified, and is below contributor |
| Users.LastAt | database/models/users.py:16-29 | the position of the last '@' of an address, or none when there is no '@' |
| Users.NormalizeEmail | database/models/users.py:16-29 | an address without '@' is unchanged; otherwise the stripped address keeps everything before its last '@' and has the part after it lower-cased |
| Users.AccountManager.CreateUser | database/models/users.py:24-35 | an empty address is refused and nothing is saved; otherwise one verified user with the normalised address and the given or default level is appended |
| Users.AccountManager.CreateSuperuser | database/models/users.py:14-22 | one verified user at the superuser level, whatever level was supplied, is appended |
| Permissions.EvalPermMeaning | database/admin/base.py:48-49 | an unset level never grants; a set one grants exactly to users at or above it |
| Permissions.OwnerPermMeaning | database/admin/base.py:51-57 | the owner route on a record needs the level and ownership; on the generic question the level suffices |
| Permissions.SuperGrantsAll | database/admin/base.py:59-87 | a user at or above a set superuser level may view, add, change and delete anything |
| Permissions.AddIgnoresOwnership | database/admin/base.py:69-73 | whether a user may add does not depend on the record asked about |
| Permissions.GenericIsMostPermissive | database/admin/base.py:51-87 | whatever is allowed on some record is allowed on the generic question |
| Permissions.EvalPermMonotone | database/admin/base.py:48-49 | a route keeps granting when the user's level is raised |
| Permissions.PermissionsMonotone | database/admin/base.py:59-87 | raising a user's level never revokes a permission on the same record |
| Permissions.ViewModelAdminByLevel | database/admin/base.py:34-87 | with the default levels: viewing for every non-disabled level, adding from contributor, changing and deleting any record from administrator and own records from contributor |
| Studies.Diagonal | database/models/methods.py:93-100 | a choice table whose codes and display texts are the given strings, one each |
| Studies.OwnerId | database/models/methods.py:52-54 | a study has an owner exactly when it has a contributor, and the owner is that user |
| Studies.UserName | database/models/methods.py:64-76 | an unset user is 'N/A'; a set one is the user's text |
| Studies.UserNameDistinguishesUnset | database/models/methods.py:64-76 | the name is 'N/A' exactly when the user is unset |
| Studies.StudyStrShape | database/models/methods.py:366-367 | a pending study's text starts with the pending marker; after it come the title and the year in brackets |
| Studies.GetExportId | database/models/methods.py:353-354 | the spreadsheet identifier when non-empty, else the primary key |
| Studies.GetExportIdAsWritten | database/models/methods.py:353-354 | as written, the export id fails with an AttributeError exactly when the study schema does not declare the identifier, and otherwise is the intended id |
| Studies.ExportIdFinding | database/models/methods.py:14-354 | with the declared study model the export id always fails; with the identifier declared it is the spreadsheet identifier or the key |
| Studies.UndeclaredStudyFields | database/models/methods.py:14-352 | the declared study model has neither a spreadsheet identifier nor a dataset field, and the study schema with the identifier has no dataset field either |
| Studies.IdentifierDeclared | database/models.py:84 | the study schema with the identifier declares it as a required text of at most 20 characters |
| Studies.QuotedIds | database/models/methods.py:360 | one quoted decimal id per id, in order |
| Studies.QuotedIdsRoundTrip | database/models/methods.py:360 | the quoted ids are the ids' digits, and splitting the joined list gives them back |
| Studies.GetViewStudyResultsUrl | database/models/methods.py:356-360 | no link exactly from the draft and submission lists; otherwise the results list filtered to the listed ids |
| Studies.ApprovedStudies | database/models/methods.py:373-380 | exactly the approved studies of the table |
| Studies.DraftStudies | database/models/methods.py:382-388 | exactly the pending studies of the table |
| Studies.ManagersPartition | database/models/methods.py:373-388 | the approved and draft managers together hold every study exactly once |
| Results.GetFlags | database/models/results.py:266-271 | exactly the boolean fields other than `is_approved`, each with the result's value |
| Results.ExactAgeText | database/models/results.py:273-282 | a range when a positive minimum and a maximum below 999 are given, an open range from the minimum, an upper limit alone, and no text exactly when neither bound applies |
| Results.Months | database/models/results.py:293 | the rounded months of the fraction lie between 0 and 12 and are 0 for a whole number of years |
| Results.ObservationTimeText | database/models/results.py:284-298 | 'N/A' without a time; whole years alone; years and months; months alone when under a year |
| Results.NearlyWholeYearShowsTwelveMonths | database/models/results.py:288-296 | 1.99 years is shown as '1 year 12 months' |
| Results.ResultOwnerId | database/models/results.py:313-315 | a result is owned by its study's contributor |
| Results.ApprovedResults | database/models/results.py:320-328 | exactly the results whose study is approved |
| Results.ApprovedResultsFollowStudies | database/models/results.py:320-328 | a result is listed exactly when its study is listed |
| Results.GetViewResultsStudiesUrl | database/models/results.py:304-308 | no link exactly for a model whose name contains 'pending'; otherwise the studies list filtered to the listed ids |
| Results.ResultStrAsWritten | database/models/results.py:310-311 | as written, printing any result fails: the result model has no `pending` |
| Results.ResultStr | database/models/results.py:310-311 | a result of a pending study is the pending marker, its study's label and its burden estimate; an approved one the same without the marker |
| Results.ResultStrAsWrittenFails | database/models/results.py:310-311 | every result fails to print as written, while the corrected text always exists and is longer than the study label |
| Actions.GetAttrOrNone | database/actions.py:22 | a missing attribute or a null value gives nothing |
| Actions.Follow | database/actions.py:21-25 | an empty chain of links leaves the object where it is, and one link is one attribute lookup |
| Actions.FollowAppend | database/actions.py:21-25 | following a path is following its first part and then the rest from where that ends, and a dead end stays a dead end |
| Actions.OutputText | database/actions.py:29 | a null value is the empty cell; any other is its Python text |
| Actions.FinalValue | database/actions.py:27-29 | a missing last attribute is an attribute error; a method is called and its result written |
| Actions.PrepField | database/actions.py:10-29 | the walk along the path computes the cell the path denotes, or the error of a missing attribute |
| Actions.NullLinkGivesEmpty | database/actions.py:17-25 | a path through a null relation gives an empty cell, whatever follows it |
| Actions.FindAfterSeparatorFree | database/actions.py:17-19 | a path splits at the first double underscore after its first link |
| Actions.Capitalize | database/actions.py:59 | the first character is upper-cased and the rest lower-cased, keeping the length |
| Actions.FieldLabel | database/actions.py:57-61 | the capitalised verbose name with verbose names on, the field name otherwise |
| Actions.Put | database/actions.py:72-89 | a new key goes last after the unchanged columns; an existing key keeps its place and takes the new label; every other column keeps its place and label |
| Actions.Keys | database/actions.py:106 | the keys of the columns, one per column, in column order |
| Actions.Labels | database/actions.py:103 | the labels of the columns, one per column, in column order |
| Actions.KeyIndex | database/actions.py:72-89 | the place of a key among the columns, absent exactly when the key is not a column |
| Actions.ResolvePath | database/actions.py:74-85 | a found field belongs to one of the models; a one-segment path is a plain field lookup; a missing first segment finds nothing; a first segment that is no relation is the field found |
| Actions.ResolveThroughRelation | database/actions.py:76-81 | a first segment that is a relation hands the rest of the path to the related model |
| Actions.PathField | database/actions.py:74-85 | a name without '__' is looked up in the model; a path with '__' is walked segment by segment |
| Actions.SpecLabel | database/actions.py:70-89 | a labelled pair gives its label; a path whose field is found is labelled with the field's capitalised verbose name, or its name; a path whose field is not found is labelled with itself |
| Actions.UnresolvedNameIsItsOwnLabel | database/actions.py:84-87 | a plain name that is no field of the model is its own heading |
| Actions.RelatedPathLabel | database/actions.py:74-89 | `link__name` through a relation is labelled as `name` is in the related model, or with itself when that model has no such field |
| Actions.SpecColumn | database/actions.py:70-89 | a column's key is its path; a labelled pair keeps its label; a path is labelled by the field it resolves to, or with itself when none is found |
| Actions.AllColumns | database/actions.py:90-93 | one column per model field, in declaration order, keyed by the field's name and labelled with its capitalised verbose name, or its name |
| Actions.ColumnsExcluding | database/actions.py:64-67 | the keys are the field names that are not excluded, in declaration order, and each column is the one the full list gives that field |
| Actions.ColumnsExcludingAsWritten | database/actions.py:64-67 | as written, the exclusion list excludes nothing: every field is a column |
| Actions.BuildSpecColumns | database/actions.py:68-89 | the loop builds the columns the field list defines |
| Actions.SpecColumnsKeys | database/actions.py:68-89 | every listed path becomes a column and nothing else does |
| Actions.ResolveOptions | database/actions.py:50-53 | each of the four options is the argument when given, else the admin's attribute, else its default (no fields, no exclusions, header and verbose names on) |
| Actions.ChooseColumns | database/actions.py:63-93 | an exclusion list wins, then a field list, then every model field |
| Actions.FileName | database/actions.py:95-98 | the given name, else the model label with dots as underscores, with '.csv' appended |
| Actions.RowCells | database/actions.py:106 | a row has one cell per column |
| Actions.RowCellsMeaning | database/actions.py:106 | each cell is the value of its column's path, and the row fails exactly when some path fails |
| Actions.DownloadAsCsv | database/actions.py:33-107 | the method writes the file name and the rows the chosen columns define |
| Actions.CsvRowsShape | database/actions.py:102-106 | the header row exactly when asked for, then one row per object, each as wide as the columns |
| Actions.ExcludeFinding | database/actions.py:64-67 | excluding the first field keeps it as written and drops it as intended |
| Filters.PrepareLookupValue | database/filters.py:28-30 | an `__in` value becomes the non-empty list of its comma-separated parts, which join back to it; an `__isnull` value becomes a flag; any other value is kept |
| Filters.Used | database/filters.py:24-30 | exactly the expected parameters that are present, each prepared from its text |
| Filters.ConsumeParameters | database/filters.py:24-30 | the filter takes the expected parameters present, and they are removed from the shared parameters while every other parameter stays as it was |
| Filters.Create | database/filters.py:42-48 | the new filter class carries the given title and field spec |
| Filters.HierarchyParameters | database/filters.py:60-61 | one expected parameter per level, the level's field, top level first |
| Filters.RangeFilter.constructor | database/filters.py:112-118 | the two lookup names are built from the two fields; the filter takes those two parameters and removes them from the shared ones, which otherwise keep their values |
| Filters.RangeFilter.LookupGte | database/filters.py:117 | there is a lower bound exactly when its parameter was given |
| Filters.RangeFilter.LookupLte | database/filters.py:118 | there is an upper bound exactly when its parameter was given |
| Filters.KeepInRange | database/filters.py:123-129 | a row is kept exactly when it meets each bound that is given, comparing numbers of the field's kind; with no bounds every row is kept |
| Filters.RangeQueryset | database/filters.py:123-129 | the query fails exactly when a given bound cannot be read as its field's kind of number, with the lower bound's message first; otherwise it holds exactly the rows inside the read bounds, and all rows without bounds |
| Filters.RangeIsContainment | database/filters.py:123-129 | with both bounds a row is kept exactly when its lower field is at least the lower bound and its upper field at most the upper bound, for integer and decimal fields alike |
| Filters.YearRangeIsContainment | database/admin/results.py:102 | on the observation-years filter, two integer bounds keep exactly the results with both years recorded, the start no earlier than the first bound and the stop no later than the second |
| Filters.FractionalYearRefused | database/models/results.py:170-174 | a year bound with a fraction is refused with the integer field's message |
| Filters.OverlapIsNotEnough | database/filters.py:123-129 | a result whose observation years overlap the filter range without lying inside it is dropped |
| Filters.ChoicesFilter.constructor | database/filters.py:137-143 | the filter takes the `__in` and `__isnull` parameters of its field path; the shared parameters lose exactly those two and the rest keep their values |
| Filters.ChoicesFilter.Selected | database/filters.py:180-195 | nothing under a set null test; otherwise the quoted codes of the non-null choices that the list names, or all of them when no list is given |
| Filters.ChoicesFilter.Queryset | database/filters.py:159-168 | a row is kept exactly when its value is in the unquoted selection (if one is given) and passes the null test (if one is given) |
| Filters.Choices | database/filters.py:148-157 | one entry with the quoted code and label for each choice with a code, and nothing else; when every choice has a code, entry i is that of choice i |
| Filters.ChoicesAppend | database/filters.py:148-157 | the entries keep the order of the choices: those of a longer list follow those of its start |
| Filters.SelectedCodes | database/filters.py:188-195 | exactly the quoted codes of non-null choices that the list names, or all of them without a list |
| Filters.NothingSelectedMeansAll | database/filters.py:148-157 | with no list given, the selected codes are exactly the codes the choices offer |
| Filters.ChoiceRows | database/filters.py:159-168 | a row is kept exactly when it passes each of the two tests that is given |
| Filters.SelectedCodeKeepsRow | database/filters.py:155-165 | a row holding a choice code is kept when that code's quotation is selected |
| Filters.ParseBound | database/filters.py:125-128 | an absent bound filters nothing; on an integer field a bound is the integer `int()` reads or the field's 'expected a number' error, on a decimal field the decimal read or the decimal error |
| StudyAdmin.GetFields | database/admin/methods.py:109-116 | administrators and above see every field; below that the creator and approver fields are removed |
| StudyAdmin.GetFieldsKeepsOthers | database/admin/methods.py:112-115 | on a list without repeats exactly the fields other than creator and approver remain, in order |
| StudyAdmin.ImportedStudiesLocked | database/admin/methods.py:208-216 | an imported study can be neither changed nor deleted by anyone; any other study follows the declared permission levels |
| StudyAdmin.OwnerLockedOutAsWritten | database/admin/methods.py:32 | as written, a contributor cannot change its own study, which the declared owner level grants |
| StudyAdmin.AllStudiesChangeByLevel | database/admin/methods.py:187-198 | a study not imported can be changed by administrators and above, and by contributors who created it |
| StudyAdmin.MyDraftsOwnerOnly | database/admin/methods.py:221-232 | in the drafts list viewing, changing and deleting need the contributor level and ownership; adding needs the contributor level |
| StudyAdmin.MyDrafts | database/admin/methods.py:250-252 | exactly the pending studies the user created |
| StudyAdmin.ViewChildResults | database/admin/methods.py:101-107 | exactly the primary keys of the selected studies |
| StudyAdmin.ApproveShrinksDrafts | database/admin/methods.py:266-269 | approving shrinks the drafts by exactly the number of rows reported |
| StudyAdmin.RevertGrowsDrafts | database/admin/methods.py:202-206 | reverting grows the drafts by exactly the number of rows reported |
| StudyAdmin.RevertUndoesApprove | database/admin/methods.py:202-206 | reverting a study approved from the drafts list restores it |
| StudyAdmin.StudyTable.ApproveStudy | database/admin/methods.py:266-269 | every selected draft of the user gets the user as approver and the time; nothing else changes; the message reports the count |
| StudyAdmin.StudyTable.RevertToDraft | database/admin/methods.py:202-206 | every selected approved study loses its approver, approval time and import source; nothing else changes; the message reports the count |
| StudyAdmin.StudyTable.IndexOfPk | database/admin/methods.py:183 | the position of the row with that key, or none when no row has it |
| StudyAdmin.StudyTable.Save | database/admin/methods.py:183 | a new study gets the next key and is appended; a saved one replaces its row |
| StudyAdmin.StudyTable.SaveModel | database/admin/methods.py:179-183 | a new study is recorded as created by the user and appended with the next key; an existing one is saved unchanged, replacing its row or appended when it has none |
| StudyAdmin.StudyTable.SaveDraft | database/admin/methods.py:254-264 | a new draft is created by the user and appended with the next key; the approve button makes the user its approver at the given time; an existing draft replaces its row, or is appended when it has none |
| StudyAdmin.FindPk | database/admin/methods.py:183 | the position of the row with that key, or none when no row has it |
| SiteAdmin.CleanUserForm | database/admin/admin.py:17-26 | an error on the datasets field exactly when the level is contributor or above and no dataset is chosen |
| SiteAdmin.CleanUserFormByLevel | database/admin/admin.py:17-26 | among the declared levels the rule binds exactly contributors, administrators and superusers |
| SiteAdmin.RequestPermsByLevel | database/admin/admin.py:63-72 | every non-disabled user may file requests and see its own; only administrators and above see others' requests or change or delete any |
| SiteAdmin.DatasetPermsByLevel | database/admin/admin.py:96-105 | administrators and above may list datasets; only superusers may add, change or delete them |
| SiteAdmin.GetRequestFields | database/admin/admin.py:76-82 | administrators see every field; below that the two named fields are removed when present |
| SiteAdmin.RequestFieldsNeverHidden | database/admin/admin.py:76-82 | neither removed name is a field of a request, so any field list of the model is shown whole |
| SiteAdmin.VisibleRequests | database/admin/admin.py:89-93 | administrators see every request; anyone else exactly the requests they created |
| SiteAdmin.SaveRequest | database/admin/admin.py:84-87 | a new request records the user as its author; an existing one keeps its author |
| SiteAdmin.StudyOrderTotal | database/admin/admin.py:114 | ordering studies by group then key is a total preorder |
| SiteAdmin.ResultOrderTotal | database/admin/admin.py:117 | ordering results by their study's group then study key is a total preorder |
| SiteAdmin.StudiesOfDatasets | database/admin/admin.py:112-113 | exactly the studies of the selected datasets |
| SiteAdmin.ResultsOfStudies | database/admin/admin.py:115-116 | exactly the results of the given studies |
| SiteAdmin.BackupStudiesAsWritten | database/admin/admin.py:110-121 | as written, the study query fails with a field error whenever the study schema has no dataset relation; given one, it raises because `messages` is undefined exactly when the selection is empty, and otherwise writes the selection |
| SiteAdmin.BackupStudies | database/admin/admin.py:110-121 | an empty selection reports the error and downloads nothing; otherwise the selected studies and results are written |
| SiteAdmin.BackupContents | database/admin/admin.py:111-117 | the backup holds exactly the studies of the selected datasets, in group and key order, and exactly their results, in study group and study order |
| SiteAdmin.BackupFinding | database/admin/admin.py:112-120 | with either study schema the code as written fails on every call; given a dataset relation it raises on an empty selection where the intended code reports, and otherwise the two agree |
| SiteAdmin.OwnRequests | database/admin/admin.py:93 | exactly the requests whose author is the given user |
| Exporter.ChoiceLabels | database/exporter.py:18 | the display labels of the choices, in declaration order |
| Exporter.DataValidation | database/exporter.py:12-27 | a drop-down exactly for choice character fields and boolean fields: the choice labels, or Yes and No followed by N/A exactly when the field may be null |
| Exporter.GetFields | database/exporter.py:29-45 | one column per named field, read and headed by that name, with the field's comment (verbose name, type description, help text) and drop-down; it fails exactly when some name is not a field |
| Exporter.ExportHeadings | database/exporter.py:29-65 | when the identifier column is headed by the first import field and the model has all the others, the header row is exactly the import fields |
| Studies.ImportFieldsDeclared | database/models/methods.py:20-40 | every Methods import column after the first is a field of the study model |
| Results.ImportFieldsDeclared | database/models/results.py:20-46 | every Results import column after the first is a field of the result model |
| Exporter.StudyFieldsHeadings | database/exporter.py:47-55 | the Methods sheet's columns are built without error and headed exactly by the study import fields |
| Exporter.ResultFieldsHeadings | database/exporter.py:57-65 | the Results sheet's columns are built without error and headed exactly by the result import fields |
| Exporter.StoredList | database/exporter.py:97 | a list validation is stored as its entries joined by ',', exactly when that text is at most 255 characters; a longer one lays no drop-down |
| Exporter.Offered | database/exporter.py:97 | the entries a stored list offers join back, with ',', into that list |
| Exporter.OfferedEntries | database/exporter.py:16-19 | entries without a ',' come back one for one from their stored list |
| Exporter.ColumnList | database/exporter.py:95-97 | a column keeps a drop-down exactly when it has a validation whose joined list fits, and the drop-down holds that list |
| Exporter.ExportedLabelImports | database/exporter.py:12-27 | when no entry of a drop-down holds a ',', every value it offers is accepted by the importer: a choice label becomes the code of a matching choice, and Yes, No and N/A become true, false and nothing |
| Exporter.DiseaseListRefused | database/models/methods.py:132-155 | the Disease labels join to 267 characters, so the Methods sheet's Disease column gets no drop-down |
| Exporter.DataSourceListRefused | database/models/methods.py:211-234 | the Data_source labels join to 280 characters, so the Methods sheet's Data_source column gets no drop-down |
| Exporter.AgeLabelSplit | database/models/results.py:62-80 | the Age_general column keeps its drop-down, but it offers "Children" and " adolescents and young adults" in place of the label "Children, adolescents and young adults" |
| Exporter.RefusedByLength | database/importer.py:74-85 | a choice field refuses, as not an allowed option, a cell whose normalised text is as long as no normalised label and no null token |
| Exporter.SplitAgeLabelRefused | database/importer.py:74-85 | the importer refuses " adolescents and young adults", an entry the Age_general drop-down offers |
| Strings.JoinInnerSeparator | database/exporter.py:97 | joining a part that holds the separator gives the same text as joining its two pieces |
| Exporter.HeaderLayout | database/exporter.py:75-83 | the header row holds exactly one heading per column at row 0, and each column's width is its heading's length plus two |
| Exporter.RowLayout | database/exporter.py:67-73 | an instance's row holds exactly its attributes, attribute j in column j |
| Exporter.BodyCellsLayout | database/exporter.py:87-90 | the data rows cover exactly rows 1 to the number of instances, instance k's attribute j at row k + 1 and column j |
| Exporter.ValidationRangesIff | database/exporter.py:93-98 | a drop-down range lies on exactly each column whose validation's joined list fits in 255 characters, with that list, from row 1 to the last row, one column wide |
| Exporter.Worksheet.WriteHeaderRow | database/exporter.py:75-83 | the header cells, comments and widths are added and nothing else changes |
| Exporter.Worksheet.WriteModelRow | database/exporter.py:67-73 | one row of cells is added and nothing else changes |
| Exporter.Worksheet.WriteRows | database/exporter.py:87-90 | the data rows are added and nothing else changes |
| Exporter.Worksheet.AddValidations | database/exporter.py:93-98 | the drop-down ranges of the columns whose joined list fits are added, with their lists, and nothing else changes |
| Exporter.Worksheet.WriteWorksheet | database/exporter.py:85-100 | header and data cells, drop-downs (for lists that fit) down to ten rows past the data, and the autofilter over header and data rows |
| Exporter.WriteExcelWorkbook | database/exporter.py:102-107 | two new sheets, Methods and Results, each laid out from its own rows and columns |
| AdminSite.HasPermission | database/admin_site.py:13-16 | exactly active users may enter the site; unverified and disabled accounts may not |
| AdminSite.ModelLeTotal | database/admin_site.py:38 | the model sort key orders models totally |
| AdminSite.AppLeTotal | database/admin_site.py:34 | the lower-cased app name orders apps totally |
| AdminSite.GetAppList | database/admin_site.py:18-40 | the method computes the index page's app list: apps by lower-cased name, each app's models by their key |
| AdminSite.AppListOrdered | database/admin_site.py:31-40 | the same number of apps, in lower-cased name order; each app keeps its name and the same models, sorted by key |
| AdminSite.AppListIsPermutation | database/admin_site.py:31-40 | the listed apps are a rearrangement of the given apps, each with its models sorted: none is dropped or listed twice |
| AdminSite.ListedModelsFirst | database/admin_site.py:23-38 | listed models follow the ranks of the table and come before every unlisted model whose name starts with a letter |
| AdminSite.AppIndexContext | database/admin_site.py:42-47 | the title defaults to the site header; every key of the caller's context, title included, takes precedence |
| AdminSite.GetUrls | database/admin_site.py:49-56 | the admin's own patterns in order, then the import page, then the catch-all last |
| AdminSite.CatchAllComesLast | database/admin_site.py:49-56 | no pattern before the last is the catch-all, so it never hides another page |
| FilterWidget.KeysMembers | static/js/custom-admin-filters.js:33-61 | a code has flags exactly when some item carries it |
| FilterWidget.KeysDistinct | static/js/custom-admin-filters.js:54 | each code has one entry, however often items repeat it |
| FilterWidget.Initial | static/js/custom-admin-filters.js:33-56 | every code starts with its flag on exactly when the initial list includes it |
| FilterWidget.CountTrue | static/js/custom-admin-filters.js:110-117 | never more codes counted than there are codes |
| FilterWidget.CountTrueZero | static/js/custom-admin-filters.js:122-123 | the count is zero exactly when no flag is on |
| FilterWidget.CountTrueAll | static/js/custom-admin-filters.js:124-125 | the count equals the number of codes exactly when every flag is on |
| FilterWidget.ActiveCodes | static/js/custom-admin-filters.js:89 | exactly the codes whose pending flag is on, as many as the count |
| FilterWidget.CountInitial | static/js/custom-admin-filters.js:32-36 | never more than the number of items |
| FilterWidget.CountInitialDistinct | static/js/custom-admin-filters.js:32-36 | with distinct codes there is one code per item, and the constructor's counter equals the count of initial flags |
| FilterWidget.CountTrueSameFlags | static/js/custom-admin-filters.js:110-117 | equal flags give equal counts |
| FilterWidget.CloseLoop | static/js/custom-admin-filters.js:110-119 | the loop reverts to or commits the flags, leaves both equal, and counts the committed ones |
| FilterWidget.SetAllLoop | static/js/custom-admin-filters.js:96-98 | the loop sets every entry of the selection to the given state and adds none |
| FilterWidget.MultipleSelect.constructor | static/js/custom-admin-filters.js:3-94 | flags from the initial list; closed; empty exactly when no item was counted as selected, full exactly when the count reaches the number of codes |
| FilterWidget.MultipleSelect.ClickOuter | static/js/custom-admin-filters.js:14-19 | a closed widget opens and loses its marks; an open one is unchanged |
| FilterWidget.MultipleSelect.Open | static/js/custom-admin-filters.js:100-103 | the widget opens and loses its collapsed, empty and full marks; no flag changes |
| FilterWidget.MultipleSelect.ClickItem | static/js/custom-admin-filters.js:65-71 | on an open widget the item's pending flag flips and nothing else changes; on a closed one the click opens it |
| FilterWidget.MultipleSelect.DoSelectAll | static/js/custom-admin-filters.js:96-98 | every pending flag takes the given state; committed flags and marks stay |
| FilterWidget.MultipleSelect.Close | static/js/custom-admin-filters.js:105-127 | Cancel restores the committed flags and OK commits the pending ones; both flags end equal, the widget is closed, and empty and full follow the committed count |
| FilterWidget.MultipleSelect.Cancel | static/js/custom-admin-filters.js:82-85 | the committed flags stay and the pending ones return to them; the widget closes |
| FilterWidget.MultipleSelect.Ok | static/js/custom-admin-filters.js:86-92 | with a callback, the pending codes are passed to it; the widget commits and closes only when the callback answers true |
| FilterWidget.FilterQuery | static/js/custom-admin-filters.js:131-141 | all items chosen gives the base query, some gives the lookup with the codes joined by commas, none gives the null-values query |
| FilterWidget.SelectionSurvivesQuery | static/js/custom-admin-filters.js:137 | codes without commas put in an `__in` parameter are read back by the server as the same list |
| FilterWidget.SelectionCount | static/js/custom-admin-filters.js:133 | with distinct codes, as many codes as items are passed exactly when every flag is on, and none exactly when every flag is off |
| FilterWidget.FilterQueryFollowsFlags | static/js/custom-admin-filters.js:131-141 | with distinct codes the page goes unfiltered when every item is chosen, to the null-values query when none is, and to a filter on the chosen codes otherwise |
| FilterWidget.RangeQuery | static/js/custom-admin-filters.js:147-157 | no bound gives the base query; each given bound is appended as its lookup and value, after '&' unless the query ends with '?' |
| SelectWidget.MultipleSelect.constructor | static/js/multi-select.js:3-84 | flags from the initial list; closed and collapsed with no empty or full mark |
| SelectWidget.MultipleSelect.ClickOuter | static/js/multi-select.js:13-18 | a closed widget opens and loses its marks; an open one is unchanged |
| SelectWidget.MultipleSelect.Open | static/js/multi-select.js:90-93 | the widget opens and loses its collapsed, empty and full marks; no flag changes |
| SelectWidget.MultipleSelect.ClickItem | static/js/multi-select.js:61-67 | on an open widget the item's pending flag flips and nothing else changes; on a closed one the click opens it |
| SelectWidget.MultipleSelect.DoSelectAll | static/js/multi-select.js:86-88 | every pending flag takes the given state; committed flags and marks stay |
| SelectWidget.MultipleSelect.Close | static/js/multi-select.js:95-117 | Cancel restores the committed flags and OK commits the pending ones; both flags end equal, the widget is closed, and empty and full follow the committed count |
| SelectWidget.MultipleSelect.Cancel | static/js/multi-select.js:71-74 | the committed flags stay and the pending ones return to them; the widget closes |
| SelectWidget.MultipleSelect.Ok | static/js/multi-select.js:75-82 | the pending flags are committed and the widget closes; with a callback, the committed codes are passed to it |
| SelectWidget.SelectQuery | static/js/multi-select.js:121-131 | all items chosen gives the base query, some gives the codes joined by commas after it, none gives the null-values query |
| SelectWidget.SelectQueryFollowsFlags | static/js/multi-select.js:121-131 | with distinct codes the page goes unfiltered when every item is chosen, to the null-values query when none is, and to the chosen codes otherwise |
| SelectWidget.SubmittedAsWritten | static/js/multi-select.js:121 | as written, OK passes exactly the initially selected codes, whatever was clicked |
| SelectWidget.ChooseOne | static/js/multi-select.js:3-84 | with the widget built by `new`, opening it, clicking one item and pressing OK passes that item exactly when it was not selected before, and every other code exactly when it was |
| SelectWidget.UnboundWidgetFinding | static/js/multi-select.js:121-131 | as written, a user who picks one of two unselected items is sent to the null-values query |
| FilterWidget.RangeQueryParameters | static/js/custom-admin-filters.js:147-157 | after a base query ending in '?', the query is the base followed by the given bounds joined by '&', and splitting it at '&' gives back exactly those bound parameters |

## Left out

- Decimal cells: Python's `float()` and `round()` work on binary floating point; the model reads the decimal text exactly and rounds half to even, so binary rounding artefacts are not modelled. Exponent notation, `inf` and `nan` are not read as numbers.
- Case folding is ASCII only; Python's Unicode lower-casing and whitespace set beyond ASCII are not modelled.
- CSV decoding and parsing: a row is the header-to-cell list the file holds, turned into the reader's dictionary (one entry per header, the last cell kept); short rows (missing cells), rows with more cells than the header, and the file's decoding are not modelled. The reader files the extra cells of a long row under the key None, and the import then reports the error "None: No such field exists" for that row.
- The Excel staging loader, commit and consistency functions imported by `database/admin_views.py` are not part of this model, since their source is not among the modelled files.
- `get_field_type_description`, which the exporter imports, is not defined in `database/importer.py`; the model uses the type texts of `get_field_descriptions` in its place.
- Foreign keys other than a result's study link, reverse relations and attribute-name (`attname`) lookups are not modelled; `getattr` on a record is a lookup in its attribute map.
- Help texts, verbose names other than the ones the CSV export labels with, password hashing and saving to the database are left out; `create_user` appends to an in-memory table.
- The database's collation is not modelled: ordering uses Python's code-point order on text.
- `Submission_status` and the other draft-form fields are not touched by `SaveDraft`, which models only the creator and approval fields.
- Django's conversion of stored values and the hierarchical filter's generic `filters()` rendering are left out; `HierarchicalFilter` contributes only its expected parameters.
- Set iteration order in `view_child_results` is not modelled: the result is a set.
- The list joining and the 255-character limit follow the xlsxwriter library's `data_validation`, which is not part of this model; Excel's splitting of the stored list at each ',' is modelled by `Exporter.Offered`.
- xlsxwriter formats, comments' styling, the HTTP response, the file name's date and the bytes of the workbook are left out; a null value is written as a null cell.
- FilterWidget.MultipleSelect.Ok: the callback's return value is a parameter (`accepted`); what the callback does besides answering is modelled separately by `FilterQuery`.
- The widgets' DOM: rendering, CSS classes other than the empty, full and collapsed marks, key order of JavaScript objects with integer-like keys, and URL percent-encoding are not modelled; codes are kept in the order the items list them.
- `window.open`, `window.close` and the navigation to the built query are not modelled beyond the query string; several widgets sharing the global object are not modelled.
- The numeric range form's reset (navigation to the base query) and `filter_apply`/`filter_reset`, copied from django-admin-rangefilter, are left out.
- Logging calls are left out.
- The range filter's docstring speaks of ranges that intersect, while the code keeps rows whose range lies inside the filter range; the model follows the code, and `Filters.OverlapIsNotEnough` exhibits the difference.
- The null tokens are those the code lists, which do not include 'nan'.
- StudiesOfDatasets: selects studies by their `datasetId`, the dataset link the backup action evidently intends; no study model declares that relation, and `SiteAdmin.BackupStudiesAsWritten` models the failure the query then raises.
- BackupStudies: rests on the same intended dataset link as `StudiesOfDatasets`.
- BackupContents: rests on the same intended dataset link as `StudiesOfDatasets`.
- GetExportId: reads the spreadsheet identifier as `database/models.py:84` declares it; with the active study model, which lacks it, `Studies.GetExportIdAsWritten` fails instead.
- WithIdentifier: filters on the spreadsheet identifier as `database/models.py:84` declares it; with the active study model the filter fails, as `Importer.IdentifierLookup` states.
- LinkCandidates: looks studies up by the spreadsheet identifier as `database/models.py:84` declares it, for the same reason as `WithIdentifier`.
- ResultStr: falls back on the study's spreadsheet identifier as `database/models.py:84` declares it; the active study model lacks that field.
- ParseInt: digits are ASCII only; Python's `int()` also reads other Unicode decimal digits.
- ParseDecimal: digits are ASCII only, and exponents, `inf` and `nan` are not read (see the first line of this list).
- The range filter's error texts quote the bound with single quotes, as Python's `repr` does for text without a single quote; text containing one is quoted differently by Python.
- Sorting.SortBy: stability (equal elements keeping their input order) is not proved; only that the result is ordered and is a permutation.

## Findings

| source | as written | input that shows it | evidently intended | confidence | as-written member | corrected member |
|---|---|---|---|---|---|---|
| database/models/users.py:55 | the access level defaults to 'readonly', which is not a declared level and sorts above '40_superuser' | a user saved without a level: `has_perm` answers true | the default is the read-only level '10_readonly' | high, not executed | Users.DefaultAsWrittenOutranksSuperuser | Users.DefaultIsReadOnly |
| database/admin/methods.py:32 | the study admins derive from `MyModelAdmin`, so the declared `perm_*` levels are never consulted and Django's default asks `has_perm`, which grants only superusers | a contributor who created a study that was not imported asks to change it in the all-studies list: refused | the declared levels apply: administrators change any study and contributors their own | medium, not executed | StudyAdmin.OwnerLockedOutAsWritten | StudyAdmin.AllStudiesChangeByLevel |
| database/admin/admin.py:112-114 | the backup's study query filters on `Dataset_id`, but no study model declares a dataset relation | back up any selection of datasets: building the query raises a field error | the studies linked to the selected datasets are backed up | medium, not executed | SiteAdmin.BackupStudiesAsWritten | SiteAdmin.BackupStudies |
| database/admin/admin.py:118-120 | `messages.error` is called but `messages` is never imported | with a dataset relation in place, back up datasets that hold no studies: the action raises instead of reporting | the error is reported and nothing is downloaded | high, not executed | SiteAdmin.BackupStudiesAsWritten | SiteAdmin.BackupStudies |
| database/models/methods.py:353-354 | `get_export_id` reads `Unique_identifier`, which the active study model does not declare | export any study: the attribute lookup raises | the spreadsheet identifier when set, else the primary key | medium, not executed | Studies.GetExportIdAsWritten | Studies.GetExportId |
| database/importer.py:115 | the relation test names `fields.ForeignKey`, which the `django.db.models.fields` module does not define | import a row with a cell that is no null token in a relation column: the test raises instead of reporting | relations are refused with the 'Can't import related field' message | medium, not executed | Importer.CoerceFieldAsWritten | Importer.CoerceField |
| database/actions.py:64-67 | the exclusion test compares field objects with excluded names, so no field is ever excluded | exclude the name of the model's first field: it is still a column | fields whose names are listed are left out | high, not executed | Actions.ColumnsExcludingAsWritten | Actions.ColumnsExcluding |
| database/models/results.py:310-311 | `__str__` reads `self.pending`, which the result model does not define | printing any result raises | the pending marker follows the parent study's approval | high, not executed | Results.ResultStrAsWritten | Results.ResultStr |
| database/importer.py:177 | the result is constructed with `Import_source`, `Approved_by` and `Approved_time`, which the result model does not have | any result row raises | the result is built from its fields and linked to its study, which carries the approval | medium, not executed | Importer.ResultsRowAsWritten | Importer.ImportCsvResultsRow |
| static/js/multi-select.js:121 | the widget constructor is called without `new`, so its state lands on the global object, the global `open` runs on a click and no item ever toggles | with two items and nothing selected, open the list, pick the first and press OK: the page goes to the null-values query | the widget is built with `new` and OK sends the clicked selection | high, not executed | SelectWidget.SubmittedAsWritten | SelectWidget.ChooseOne |
