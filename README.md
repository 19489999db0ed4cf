# FATI data core, modelled in Dafny

FATI is a Django back office that follows the health and education indicators
of Senegal's territories: regions, departments and communes. This project models
its core in Dafny and proves what that core promises. The core has two parts.

- **The import pipeline.** The `populate_data` management command reads
  spreadsheet exports saved as JSON. It normalises labels, parses French and
  English numerals, and picks out year columns. It guesses each indicator's
  category and type, builds indicator codes and resolves place names to
  territories. It then reuses or creates indicators and upserts one value per
  (indicator, region, department, commune, year, period).
- **The older import script.** `import_json_data.py` imports the same files
  with its own number cleaner, region lookup and bulk insert.

Around the pipeline sit the decision rules and state updates of the
applications:

- indicator values: saving, scoping, validation, rejection, comparison and the
  trend rule;
- workflow transitions and alerts;
- dashboards: visibility, sharing, duplication, filter merging, trends and
  report generation;
- data collections and submissions;
- the audit log and data-quality score;
- staff vacancies;
- user roles, managers, serializers and account views;
- geography search and hierarchy.

Each file is one module:

- `text`, `normalize`, `numbers`, `json` and `dicts` model the Python string,
  number, JSON and dictionary behaviour the code relies on.
- `import_helpers`, `codes`, `geo_lookup`, `indicator_store`, `populate`,
  `education_import` and `command` model `populate_data.py`.
- `legacy_import` models `import_json_data.py`.
- The remaining modules model one Django application each.

The code's shape is kept:

- Loops become methods with invariants, proved against a specification
  function.
- Objects whose fields are updated in place become classes.
- A database table is a sequence of rows that the methods reassign.
- Pure rules are functions, and lemmas relate them.

## Model

| member | source | states |
|---|---|---|
| Accounts.RolePredicatesExclusive | fati_accounts/models.py:118-136 | at most one of is_admin, is_institution, is_local_manager, is_contributor holds, and a sector user satisfies none of them |
| Accounts.FullName | fati_accounts/models.py:108-112 | the full name is the short name (first name), one space, then the last name |
| Accounts.NewUser | fati_accounts/models.py:33-44 | a new user keeps the given fields and takes the model defaults for the rest: role viewer, status pending, active, not staff, not superuser, no login time, no territory |
| Accounts.MissingField | fati_accounts/managers.py:13-18 | the guards of create_user in order: email missing first, then first name, then last name; none fires exactly when all three are non-empty |
| Accounts.CreatedUser | fati_accounts/managers.py:11-29 | create_user fails with the first missing field or a taken normalised email; otherwise it appends exactly one user with the normalised email, the given names and password and the role/status defaults |
| Accounts.SuperuserExtra | fati_accounts/managers.py:31-42 | the setdefaults give staff, superuser, active, role admin and status active unless supplied; an explicit false staff or superuser flag is refused, staff checked first |
| Accounts.DefaultSuperuser | fati_accounts/managers.py:31-44 | with no extra fields, create_superuser succeeds on valid input and yields an active admin that is staff, superuser and enabled |
| Accounts.ActiveUsers | fati_accounts/managers.py:46-48 | active() keeps exactly the users whose status is active and whose account is enabled |
| Accounts.RoleNamed | fati_accounts/models.py:14-21 | the role whose stored value is the given text, and none when no role has that value |
| Accounts.ValidateRole | fati_accounts/serializers.py:59-63 | 'viewers' becomes 'viewer'; every other value is returned unchanged |
| Accounts.RoleFieldAsWritten | fati_accounts/serializers.py:46-63 | as written, the choice check runs before validate_role, so an accepted role is always one whose value is exactly the input |
| Accounts.LegacyViewersRefused | fati_accounts/serializers.py:59-63 | the legacy value 'viewers' is refused by the choice check and never reaches validate_role |
| Accounts.RoleField | fati_accounts/serializers.py:59-63 | the corrected field maps 'viewers' to the viewer role and otherwise behaves as the choice check |
| Accounts.RoleFieldAcceptsRoles | fati_accounts/models.py:14-21 | every role's own value is accepted as that role, by both the written and the corrected field |
| Accounts.PasswordField | fati_accounts/serializers.py:49 | a required CharField accepts exactly a present value that is non-blank once trimmed and at least the minimum length, and yields the trimmed text |
| Accounts.ChangePasswordData | fati_accounts/serializers.py:86-98 | the payload is valid exactly when all three fields are, the new password has at least 8 characters and equals the confirmation |
| Accounts.MismatchRefused | fati_accounts/serializers.py:93-98 | two different new passwords are refused whatever their length |
| Accounts.TokensOf | fati_accounts/views.py:128 | the tokens of a user are exactly the token rows whose user is that user |
| Accounts.RegeneratedTokenUnique | fati_accounts/views.py:127-129 | after regeneration the user holds exactly one token, the new one |
| Accounts.RegeneratedTokensKeepOthers | fati_accounts/views.py:127-129 | regenerating one user's token leaves every other user's tokens unchanged |
| Accounts.VisibleUsers | fati_accounts/views.py:41-57 | an admin sees every user; an institution user exactly the users in the institution, sector, local-manager and contributor roles; anyone else exactly their own account |
| Accounts.AdminsHidden | fati_accounts/views.py:41-57 | a non-admin never sees an admin or a viewer other than themselves |
| Accounts.UsersByRole | fati_accounts/views.py:136-148 | 400 exactly when the role parameter is missing; otherwise exactly the visible users with that role |
| Accounts.MyPermissions | fati_accounts/views.py:158-163 | exactly the permission rows of the requester's role |
| Accounts.Authenticate | fati_accounts/views.py:68 | the first account with that email, when its password matches and it is enabled; none otherwise |
| Accounts.UserStore.constructor | fati_accounts/models.py:11 | the user and token tables start as given |
| Accounts.UserStore.CreateUser | fati_accounts/managers.py:11-29 | the user table becomes the CreatedUser result and the new position is returned, or it is unchanged and the error is returned; tokens untouched |
| Accounts.UserStore.CreateSuperuser | fati_accounts/managers.py:31-44 | the superuser checks run first and leave the table unchanged on failure; otherwise create_user runs with the completed extra fields |
| Accounts.UserStore.CreateFromSignup | fati_accounts/serializers.py:45-70 | given the validated signup (email not in use, password of at least 8 characters), exactly one user is appended, with every signup field and the password set afterwards, and its email is unique; the earlier users and the tokens are unchanged |
| Accounts.UserStore.UpdateLastLogin | fati_accounts/models.py:114-116 | only last_login_at of that user changes, to now |
| Accounts.UserStore.Login | fati_accounts/views.py:59-91 | 401 for bad credentials and 403 for a non-active status, both with nothing changed; otherwise 200, the login time is stamped and the user's existing token is returned or one new token is created |
| Accounts.UserStore.ChangePassword | fati_accounts/views.py:108-134 | 400 with nothing changed for an invalid payload or a wrong old password; otherwise only the password changes and the user's tokens are replaced by one new token |
| Accounts.NoTokensLeft | fati_accounts/views.py:128 | deleting a user's tokens leaves that user none |
| Accounts.KeptTokens | fati_accounts/views.py:128 | deleting one user's tokens leaves every other user's tokens as they were |
| Audit.BeforeComma | fati_audit/models.py:99 | the text before the first comma: a prefix of the header with no comma, followed by a comma unless it is the whole header |
| Audit.ClientIp | fati_audit/models.py:94-102 | a non-empty X-Forwarded-For header gives its first hop, unstripped; otherwise REMOTE_ADDR |
| Audit.ForwardedIsFirstHop | fati_audit/models.py:97-100 | the address taken from the header is a comma-free prefix of it |
| Audit.OrEmpty | fati_audit/models.py:88-89 | a missing value set is stored as an empty dictionary, a given one as is |
| Audit.StoredIp | fati_audit/models.py:51 | the GenericIPAddressField stores no address and an empty text as NULL, an IPv6 text in its canonical form, and any other text as it is when inet accepts it; otherwise the insert fails |
| Audit.Log | fati_audit/models.py:69-92 | the insert fails exactly when the database refuses the client address; otherwise without a user the entry names 'Anonymous' with an empty role, else the user's id, full name and role; without a request no IP and an empty agent, else the stored form of the client IP and the agent; value sets default to empty |
| Audit.EmptyFirstHopStoredNull | fati_audit/models.py:94-102 | a forwarded header that starts with a comma gives an empty first hop, stored as NULL |
| Audit.QualitySummary | fati_audit/views.py:93-115 | the counts are the numbers of passed, warning and failed checks; the score is (100·passed + 50·warning) / total, and 100 with no checks |
| Audit.ScoreBounds | fati_audit/views.py:98-107 | the score lies in [0, 100] and is 100 exactly when every check passed |
| Audit.LogsSince | fati_audit/views.py:36-37 | exactly the logs created at or after the cut-off, in order |
| Audit.Recent | fati_audit/views.py:33-40 | at most 50 logs, all from the window (7 days by default), a prefix of the window's logs and all of them when fewer than 50 |
| Audit.RecentComplete | fati_audit/views.py:33-40 | with fewer than 50 logs in the window, every log of the window is returned |
| Audit.Tally | fati_audit/views.py:42-48 | one group per distinct key, each holding the key's number of occurrences, and every occurring key has a group |
| Audit.SortByCountDesc | fati_audit/views.py:46 | the groups reordered (a permutation) by decreasing count |
| Audit.SortedTally | fati_audit/views.py:42-48 | the sorted groups still carry exact counts and still cover every occurring key |
| Audit.ByEntity | fati_audit/views.py:42-48 | groups by entity type, sorted by decreasing count, each with its exact count, covering every entity type |
| Audit.ByUser | fati_audit/views.py:50-58 | at most 20 groups by (user, name), sorted by decreasing count, each with its exact count, and every group left out is outnumbered by every group kept |
| Audit.TopGroupsLargest | fati_audit/views.py:50-58 | cutting the sorted groups after `limit` keeps the largest ones: every key left out occurs no more often than any key kept |
| Audit.StatusCountsCover | fati_audit/views.py:98-101 | every check is passed, warning or failed, so the three counts add up to the total |
| Audit.AllPassedIff | fati_audit/views.py:98-107 | the passed count equals the total exactly when every check passed |
| Audit.InsertByCount | fati_audit/views.py:45-47 | inserting a group into groups sorted by decreasing count keeps them sorted and adds exactly that group, as a permutation |
| Codes.UniqueGeoCode | fati_accounts/management/commands/populate_data.py:247-253 | the returned code is not taken, and it is the first candidate of base, base_1, base_2, … that is free |
| Codes.NextCode | fati_accounts/management/commands/populate_data.py:1069-1075 | the returned code is not taken, and it is the first candidate PREFIX-0001, PREFIX-0002, … that is free |
| Codes.DistinctInside | fati_accounts/management/commands/populate_data.py:250 | n distinct candidates that are all taken fit in the taken set, so the search loop ends |
| Command.Handle | fati_accounts/management/commands/populate_data.py:89-123 | both only-options together is an error that changes nothing; otherwise the health then the education import run unless only-generate; a document that is not an object ends the command with AttributeError, a health one before anything is written and an education one after the health import is stored; the synthetic fallback of a sector is chosen exactly when only-json is off and that sector imported fewer values than its minimum |
| Command.FallbackDecision | fati_accounts/management/commands/populate_data.py:102-123 | only-json never generates; only-generate generates a sector exactly when its minimum is positive |
| Command.RoundHalfEven | fati_accounts/management/commands/populate_data.py:529 | Python's round(): the nearest integer, within one half |
| Command.RoundTieEven | fati_accounts/management/commands/populate_data.py:529 | a value exactly half-way between two integers rounds to the even one |
| Command.Clamp | fati_accounts/management/commands/populate_data.py:526-531 | percentages are clamped into [0, 100] and left alone inside it; counts become a non-negative whole number, the rounded value when non-negative; other types are floored at 0 |
| Dicts.Get | fati_accounts/management/commands/populate_data.py:287-291 | d.get(k): none exactly when k is not a key, otherwise the value stored with k |
| Dicts.Put | fati_accounts/management/commands/populate_data.py:260 | d[k] = v: an existing key keeps its position and every other entry is unchanged; a new key is appended |
| Dicts.GetPut | fati_accounts/management/commands/populate_data.py:260 | after d[k] = v, reading k gives v and reading any other key gives what it gave before |
| Dicts.PutKeepsDistinct | fati_accounts/management/commands/populate_data.py:260 | d[k] = v keeps the keys distinct |
| Dicts.Keys | fati_accounts/management/commands/populate_data.py:296 | the keys in iteration order |
| Dicts.IndexRows | fati_accounts/management/commands/populate_data.py:259-263 | the loop filling a dictionary from rows builds exactly Index of the rows |
| Dicts.IndexGet | fati_accounts/management/commands/populate_data.py:259-263 | after the loop a key is bound exactly when some row has it, and to the value of the last such row |
| Dicts.IndexShape | fati_accounts/management/commands/populate_data.py:259-263 | the dictionary built from rows has distinct keys, each the key of some row |
| Json.Str | fati_accounts/management/commands/populate_data.py:422 | str() of a JSON cell: a string cell is its own text |
| Json.Or | fati_accounts/management/commands/populate_data.py:342 | Python's `a or b`: a when it is truthy, b otherwise |
| Json.Get | fati_accounts/management/commands/populate_data.py:336 | row.get(key): present exactly when some member has that key, and then the value of a member with that key |
| Json.GetLast | fati_accounts/management/commands/populate_data.py:336 | row.get(key) finds the value of the last member with the key, as json.loads keeps the last of repeated keys |
| Json.Loaded | fati_accounts/management/commands/populate_data.py:315 | the dictionary json.loads builds from an object's members has each key once |
| Json.GetLoaded | fati_accounts/management/commands/populate_data.py:315 | a lookup in an object's members finds what the dictionary json.loads builds from them holds for that key |
| Dashboards.Shared | fati_dashboards/views.py:63-66 | sharing adds the ids to the members, keeps the existing ones, sets the shared flag and changes no other field |
| Dashboards.Unshared | fati_dashboards/views.py:76-78 | unsharing empties the members, clears the shared flag and changes no other field |
| Dashboards.ShareOpensToEveryone | fati_dashboards/views.py:34-45 | sharing keeps every existing member and, because it sets the flag, makes the dashboard visible to every user |
| Dashboards.UnshareRestrictsToOwner | fati_dashboards/views.py:34-45 | after unsharing a user sees the dashboard exactly when they are a superuser or its owner |
| Dashboards.ShareIdempotent | fati_dashboards/views.py:63-66 | sharing twice with the same ids equals sharing once |
| Dashboards.CopyOf | fati_dashboards/views.py:88-95 | the copy is named original + " (Copie)", owned by the requester, with the same description, type, layout and default filters, and the model defaults for the flags |
| Dashboards.CopyWidget | fati_dashboards/views.py:99-111 | a copied widget moves to the new dashboard, keeps every listed field and takes the default is_active |
| Dashboards.WidgetsOf | fati_dashboards/views.py:98 | the widgets of the dashboard in position order (row, then column, as the widget model's ordering says): a permutation of the dashboard's widgets in the table, holding every one of them |
| Dashboards.Place | fati_dashboards/models.py:162 | one widget inserted into a position-ordered sequence keeps it ordered and adds exactly that widget |
| Dashboards.SortByPlace | fati_dashboards/models.py:162 | the widgets sorted by row, then column: in position order and a permutation of the input |
| Dashboards.SortByPlaceKeepsOrdered | fati_dashboards/models.py:162 | widgets already in position order are left as they are |
| Dashboards.TableWidgetsOf | fati_dashboards/views.py:98 | exactly the widgets of the dashboard, in table order |
| Dashboards.CopiedWidgets | fati_dashboards/views.py:98-111 | one copy per widget of the dashboard, in position order |
| Dashboards.CopyKeepsLayout | fati_dashboards/views.py:99-111 | each copy keeps the name, type, position, size, config, data source, filters and refresh interval of its original |
| Dashboards.CopiesCoverDashboard | fati_dashboards/views.py:98-111 | there are as many copies as the dashboard has widgets, every widget of the dashboard is copied, and the copies are in position order |
| Dashboards.EffectiveFilters | fati_dashboards/views.py:124-125 | the keys are those of the defaults and the query; a query value wins, other keys keep their default |
| Dashboards.ActiveWidgets | fati_dashboards/views.py:129 | exactly the table positions of the active widgets of the dashboard, each once; the data action only asks whether there is one |
| Dashboards.TwoPointTrend | fati_dashboards/views.py:208-218 | 'up', 'down' or 'stable' as the newest value is above, below or equal to the one before; 'stable' with fewer than two values (its only caller, the KPI branch of the widget data, is never reached) |
| Dashboards.TrendSwap | fati_dashboards/views.py:208-218 | only the two newest values matter, and exchanging them turns 'up' into 'down' and back |
| Dashboards.Store.constructor | fati_dashboards/views.py:34 | the dashboard and widget tables start as given |
| Dashboards.Store.Share | fati_dashboards/views.py:57-70 | 404 and no change for a dashboard the user does not see; otherwise only that dashboard becomes its shared version |
| Dashboards.Store.Unshare | fati_dashboards/views.py:73-80 | 404 and no change for a dashboard the user does not see; otherwise only that dashboard becomes its unshared version |
| Dashboards.Store.Duplicate | fati_dashboards/views.py:83-116 | 404 and no change for a dashboard the user does not see; otherwise the copy is appended and then a copy of each of its widgets, in position order |
| Dashboards.Store.Data | fati_dashboards/views.py:119-148 | 404 for a dashboard the user does not see; otherwise the effective filters, and 500 exactly when the dashboard has an active widget, since reading one imports a Facility model that does not exist; 200 with no widget data otherwise |
| Dashboards.Reports.constructor | fati_dashboards/models.py:261-272 | the report table starts as given |
| Dashboards.Reports.Generate | fati_dashboards/views.py:267-300 | 404 and nothing created for an unknown template; otherwise exactly one report by the requester is appended and it ends completed |
| DataCollecting.NewSubmission | fati_data_collection/models.py:157-162 | a new submission starts draft, not submitted and not reviewed, for the given collection, territory and contributor |
| DataCollecting.SubmittedAtMostCount | fati_data_collection/models.py:96-102 | the submitted submissions of a collection are never more than all its submissions |
| DataCollecting.AllSubmittedIff | fati_data_collection/models.py:96-102 | the submitted count equals the total exactly when every submission of the collection is submitted |
| DataCollecting.Campaign.constructor | fati_data_collection/models.py:63-75 | a new collection starts planned with a response rate of 0 |
| DataCollecting.Campaign.CalculateResponseRate | fati_data_collection/models.py:96-102 | no change without submissions; otherwise the rate is submitted / total × 100, which lies in [0, 100]; only the rate changes |
| DataCollecting.Campaign.Start | fati_data_collection/views.py:42-48 | the status becomes ongoing whatever it was before; the rate is untouched |
| DataCollecting.Campaign.Complete | fati_data_collection/views.py:51-57 | the status becomes completed whatever it was before; the rate is untouched |
| DataCollecting.RateBounds | fati_data_collection/models.py:98-101 | with 0 < total and submitted ≤ total, submitted / total × 100 lies in [0, 100] and times total gives back 100 × submitted |
| DataCollecting.ValidatedNotCounted | fati_data_collection/models.py:98-101 | a validated submission counts in the total but not as submitted, so validating lowers the rate |
| DataCollecting.Submissions.constructor | fati_data_collection/views.py:60 | the submission table starts as given |
| DataCollecting.Submissions.Submit | fati_data_collection/views.py:86-94 | 404 and no change outside the requester's scope; otherwise only that submission becomes submitted with submitted_at stamped |
| DataCollecting.Submissions.Validate | fati_data_collection/views.py:97-106 | 404 and no change outside the requester's scope; otherwise only that submission becomes validated, reviewed by the requester at now |
| DataCollecting.ReachableSubmissions | fati_data_collection/views.py:70-83 | a contributor with an assigned commune reaches exactly the submissions of that commune |
| EducationImport.ColumnPairs | fati_accounts/management/commands/populate_data.py:466-470 | one (year, value) pair per year-map column whose cell parses, never more pairs than columns |
| EducationImport.ColumnPairsFromMap | fati_accounts/management/commands/populate_data.py:466-470 | every pair comes from a column of the year map whose cell parses to that value |
| EducationImport.ColumnPairsComplete | fati_accounts/management/commands/populate_data.py:466-470 | every column whose cell parses contributes its pair |
| EducationImport.ColumnPairsLast | fati_accounts/management/commands/populate_data.py:466-470 | a parsing last column adds its pair after those of the earlier columns |
| EducationImport.ColumnPairsGrow | fati_accounts/management/commands/populate_data.py:466-470 | one more column keeps every pair of the earlier columns |
| EducationImport.ColumnStep | fati_accounts/management/commands/populate_data.py:466-470 | one more column adds its pair when its cell parses and nothing otherwise |
| EducationImport.EduRowConsistent | fati_accounts/management/commands/populate_data.py:414-480 | each row keeps the current indicator, when set, a row of the indicator table |
| EducationImport.EduRowsConsistent | fati_accounts/management/commands/populate_data.py:417-480 | the row loop keeps the current indicator a row of the indicator table |
| EducationImport.EduRowValid | fati_accounts/management/commands/populate_data.py:414-480 | each row keeps indicator codes and names unique and one value per key |
| EducationImport.EduRowsValid | fati_accounts/management/commands/populate_data.py:417-480 | the row loop keeps indicator codes and names unique and one value per key |
| EducationImport.EduSheetsValid | fati_accounts/management/commands/populate_data.py:410-480 | the sheet loop keeps indicator codes and names unique and one value per key |
| EducationImport.EduGroupsValid | fati_accounts/management/commands/populate_data.py:406-480 | the whole education import keeps indicator codes and names unique and one value per key |
| EducationImport.NoPeriodNoValues | fati_accounts/management/commands/populate_data.py:428-460 | with no PERIODE row, the year map stays empty and no value is written or counted |
| EducationImport.NoIndicatorNoValues | fati_accounts/management/commands/populate_data.py:432-460 | with no FREQUENCE … INDICATEUR row, no indicator is current and nothing is written |
| EducationImport.DataRowStores | fati_accounts/management/commands/populate_data.py:459-480 | a data row once both are set keeps the year map and indicator, counts one import per parsed column and upserts exactly those pairs at the territory of its label |
| EducationImport.DataRowOutcome | fati_accounts/management/commands/populate_data.py:459-480 | a data row's state change is exactly the upserts of its parsed columns and their count |
| EducationImport.StoreColumns | fati_accounts/management/commands/populate_data.py:465-480 | the column loop writes exactly the upserts of the parsed pairs and counts them; indicators untouched |
| EducationImport.StoreColumn | fati_accounts/management/commands/populate_data.py:466-480 | one column: an upsert exactly when its cell parses, nothing otherwise |
| EducationImport.UpsertSnoc | fati_accounts/management/commands/populate_data.py:471-479 | upserting one more pair is one more upsert after the earlier ones |
| EducationImport.ObtainIndicator | fati_accounts/management/commands/populate_data.py:445-456 | the indicator lookup or creation and the created counter are those of the specification |
| EducationImport.EduRowStep | fati_accounts/management/commands/populate_data.py:417-480 | one row of the loop: the new year map, current indicator, tables and counters are those of EduRow |
| EducationImport.EduHeaderRow | fati_accounts/management/commands/populate_data.py:432-457 | a FREQUENCE … INDICATEUR row: the indicator is looked up or created and becomes current, as EduRow says |
| EducationImport.EduDataRow | fati_accounts/management/commands/populate_data.py:459-480 | a data row: the value upserts and the count are those of EduRow; no indicator is created |
| EducationImport.EduSheet | fati_accounts/management/commands/populate_data.py:414-480 | the row loop of a sheet, from an empty year map and no indicator, ends in the EduRows state |
| EducationImport.EduRowsSnoc | fati_accounts/management/commands/populate_data.py:417 | one more row of the row loop is one more EduRow step, skipping non-objects |
| EducationImport.EduSheetsStep | fati_accounts/management/commands/populate_data.py:410-412 | one more sheet of the sheet loop, skipping non-lists |
| EducationImport.EduGroup | fati_accounts/management/commands/populate_data.py:410-480 | the sheet loop of one group ends in the EduSheets state |
| EducationImport.ImportEducationJson | fati_accounts/management/commands/populate_data.py:391-487 | a missing or unreadable file imports nothing; a document that is not an object raises AttributeError and changes nothing; otherwise the tables and the count are those of EduGroups over the groups that are objects |
| Facilities.FacilityRegion | fati_facilities/models.py:77-83 | a facility's region is the region of its commune's department |
| Facilities.FacilityInRegionCommunes | fati_facilities/models.py:77-83 | a facility's commune is among the communes of the facility's region |
| Facilities.Staff.constructor | fati_facilities/models.py:232-236 | a staff row starts with the given total and filled counts and vacant at its default 0 |
| Facilities.Staff.Save | fati_facilities/models.py:246-249 | vacant becomes total − filled, so vacant + filled = total; total and filled are unchanged; the row is stored exactly when the counts fit the unsigned columns |
| GeoLookup.AliasStepBinds | fati_accounts/management/commands/populate_data.py:273-277 | an alias whose target is bound binds the alias name to the target's row and changes no other name |
| GeoLookup.SelfAliasInvisible | fati_accounts/management/commands/populate_data.py:266-272 | an alias onto itself changes nothing |
| GeoLookup.NameIndexGet | fati_accounts/management/commands/populate_data.py:259-263 | a normalised name is bound exactly when some row has it, and to the last such row |
| GeoLookup.NameIndexShape | fati_accounts/management/commands/populate_data.py:259-263 | the name index has distinct keys, each already normalised |
| GeoLookup.Fuzzy | fati_accounts/management/commands/populate_data.py:296-301 | the first entry whose key is contained in the label or contains it, and none when no entry overlaps |
| GeoLookup.ResolveGeo | fati_accounts/management/commands/populate_data.py:279-303 | the commune is always none, and at most one of region and department is set |
| GeoLookup.ResolveNational | fati_accounts/management/commands/populate_data.py:280-285 | an empty label or one naming SENEGAL, TOTAL or NATIONAL resolves to no territory |
| GeoLookup.ResolvePrecedence | fati_accounts/management/commands/populate_data.py:287-301 | an exact department match wins over an exact region match, which wins over substring matching; every territory found is a row of its table |
| GeoLookup.ResolveKnownDepartment | fati_accounts/management/commands/populate_data.py:287-289 | a label that is also a department name resolves to that department and to no region, even when it also names a region |
| GeoLookup.Lookup.constructor | fati_accounts/management/commands/populate_data.py:256-257 | both name tables start empty |
| GeoLookup.Lookup.Build | fati_accounts/management/commands/populate_data.py:255-277 | the department table is the name index of the departments, the region table the name index of the regions with the aliases applied |
| GeoLookup.Lookup.Resolve | fati_accounts/management/commands/populate_data.py:279-303 | resolving a label with the built tables is ResolveGeo |
| GeoLookup.AddAliases | fati_accounts/management/commands/populate_data.py:273-277 | the alias loop builds exactly ApplyAliases |
| GeoLookup.ScanFirst | fati_accounts/management/commands/populate_data.py:296-301 | the scan loop returns exactly the first overlapping entry |
| Geography.DepartmentsOf | fati_geography/views.py:32-37 | exactly the departments of the region, in table order |
| Geography.CommunesOf | fati_geography/views.py:73 | exactly the communes of the department, in table order |
| Geography.DepartmentById | fati_geography/views.py:43 | the department with that id, and none when no department has it |
| Geography.RegionOfCommune | fati_geography/views.py:40-45 | a commune's region is the region of its department, when that department exists |
| Geography.RegionCommunes | fati_geography/views.py:40-45 | exactly the communes whose department belongs to the region |
| Geography.RegionCommunesThroughDepartments | fati_geography/views.py:40-45 | a commune is among a region's communes exactly when its department is one of the region's departments |
| Geography.DepartmentEntry | fati_geography/views.py:62-76 | a department node carries the department's id, code and name and one leaf per commune of that department, in order |
| Geography.RegionEntry | fati_geography/views.py:55-77 | a region node carries the region's id, code and name and one department node per department of that region, in order |
| Geography.HierarchyNesting | fati_geography/views.py:48-79 | every department listed under a region belongs to it, and every commune listed under a department belongs to it |
| Geography.Hierarchy | fati_geography/views.py:48-79 | one node per region, in order, each the region's full entry |
| Geography.Search | fati_geography/views.py:120-131 | 400 exactly when the query is shorter than 2 characters; otherwise the first 20 communes whose name contains the query, ignoring case |
| Geography.SearchComplete | fati_geography/views.py:120-131 | with at most 20 matches, every matching commune is returned |
| Scoping.ScopeOf | fati_indicators/views.py:124-138 | contributors and local managers are scoped to their commune, else department, else region, else nothing; every other role is unscoped |
| Scoping.Scoped | fati_indicators/views.py:124-138 | exactly the rows inside the requester's scope, in order, and all rows when unscoped |
| Scoping.CommuneWins | fati_data_collection/views.py:75-81 | with an assigned commune only the commune counts, whatever department or region is also assigned |
| Scoping.DepartmentBeforeRegion | fati_data_collection/views.py:75-81 | without a commune, an assigned department wins over an assigned region |
| ImportHelpers.YearValue | fati_accounts/management/commands/populate_data.py:969-974 | a key that is exactly a year 19xx or 20xx reads as a year in [1900, 2099] |
| ImportHelpers.YearCell | fati_accounts/management/commands/populate_data.py:967-974 | a cell yields one (year, value) pair exactly when its stripped key is a year and its value parses, and none otherwise |
| ImportHelpers.ExtractYearValues | fati_accounts/management/commands/populate_data.py:965-975 | the year-column loop returns exactly YearValues of the row |
| ImportHelpers.YearValuesInRange | fati_accounts/management/commands/populate_data.py:965-975 | every returned year lies in [1900, 2099] |
| ImportHelpers.YearValuesConcat | fati_accounts/management/commands/populate_data.py:967 | the row's cells are read in order: the pairs of a + b are those of a followed by those of b |
| ImportHelpers.YearValuesMember | fati_accounts/management/commands/populate_data.py:965-975 | a (year, value) pair is returned exactly when some cell has that year as its stripped key and a value that parses to it |
| ImportHelpers.FindYear | fati_accounts/management/commands/populate_data.py:982-984 | a year found by re.search lies in [1900, 2099] |
| ImportHelpers.FindYearSpec | fati_accounts/management/commands/populate_data.py:982-984 | no year is found exactly when no position starts 19dd or 20dd; otherwise the year is read at the first such position |
| ImportHelpers.ExtractYearMap | fati_accounts/management/commands/populate_data.py:977-985 | the year-map loop returns exactly YearMap of the row |
| ImportHelpers.YearMapShape | fati_accounts/management/commands/populate_data.py:977-985 | the year map has distinct columns, each a non-null column of the row, mapped to a year in [1900, 2099] |
| ImportHelpers.AfterColon | fati_accounts/management/commands/populate_data.py:988-991 | the captured group after the colon holds no comma and is stripped |
| ImportHelpers.MatchAt | fati_accounts/management/commands/populate_data.py:988-989 | a match at one position captures a comma-free, stripped group |
| ImportHelpers.Search | fati_accounts/management/commands/populate_data.py:988-989 | re.search: the match at the first position where the pattern matches, and none when it matches nowhere |
| ImportHelpers.IndicatorLine | fati_accounts/management/commands/populate_data.py:987-992 | without an 'indicateur :' label the name is the stripped text; with one, the name holds no comma; the unit never holds a comma; the name is stripped |
| ImportHelpers.IndicatorLineRoundTrip | fati_accounts/management/commands/populate_data.py:987-992 | a stripped comma-free name written after 'Indicateur : ' is read back exactly |
| ImportHelpers.LabelIndicateur | fati_accounts/management/commands/populate_data.py:988 | the label 'Indicateur : ' matches the case-insensitive indicator pattern at position 0 |
| ImportHelpers.RemoveAll | fati_accounts/management/commands/populate_data.py:996 | str.replace(p, ""): the result is never longer than the input |
| ImportHelpers.RemoveAllAbsent | fati_accounts/management/commands/populate_data.py:996 | removing a pattern that does not occur changes nothing |
| ImportHelpers.CollapseRuns | fati_accounts/management/commands/populate_data.py:997 | re.sub of a character class followed by + with rep: only rep is left from the class, never doubled, every other character comes from the input, and the first character is kept or replaced |
| ImportHelpers.CollapseRunsFixed | fati_accounts/management/commands/populate_data.py:997 | a string already free of runs is unchanged |
| ImportHelpers.CleanName | fati_accounts/management/commands/populate_data.py:994-998 | the cleaned name holds no other whitespace than single spaces, and neither starts nor ends with a space, '-', ':' or ';' |
| ImportHelpers.CleanNameFixed | fati_accounts/management/commands/populate_data.py:994-998 | cleaning an already clean name changes nothing |
| ImportHelpers.StripCharsSlice | fati_accounts/management/commands/populate_data.py:997 | stripping edge characters keeps single spaces and removes the edge characters at both ends |
| ImportHelpers.LooksLikeHeaderNormal | fati_accounts/management/commands/populate_data.py:1000-1010 | the header test gives the same answer on a name and on its normal form |
| ImportHelpers.HeaderFirstPatternSubsumed | fati_accounts/management/commands/populate_data.py:1004-1010 | the pattern "PRINCIPAUX INDICATEURS" is redundant: any text containing it contains "INDICATEURS" |
| ImportHelpers.MetaRowExtends | fati_accounts/management/commands/populate_data.py:1012-1022 | a value starting with a meta prefix stays a meta row whatever follows |
| ImportHelpers.FirstMatch | fati_accounts/management/commands/populate_data.py:1027-1050 | the category of some rule, or the fallback |
| ImportHelpers.FirstMatchSpec | fati_accounts/management/commands/populate_data.py:1027-1050 | when rule k is the first that fires, its category is chosen |
| ImportHelpers.FirstMatchNone | fati_accounts/management/commands/populate_data.py:1038 | when no rule fires, the fallback is chosen |
| ImportHelpers.RuleCategories | fati_accounts/management/commands/populate_data.py:1027-1050 | no health rule yields QUALITY and no education rule yields FINANCE |
| ImportHelpers.GuessCategoryRange | fati_accounts/management/commands/populate_data.py:1024-1050 | the health branch never yields QUALITY, as written or corrected; the other branch never yields FINANCE |
| ImportHelpers.MortalityNeverOutcome | fati_accounts/management/commands/populate_data.py:1032-1035 | as written, a label containing MORTALITE never reaches the OUTCOMES rule |
| ImportHelpers.MortalityFirstRules | fati_accounts/management/commands/populate_data.py:1028-1031 | the finance and personnel rules do not fire on a MORTALITE label |
| ImportHelpers.MortalityLabelAsWritten | fati_accounts/management/commands/populate_data.py:1032-1033 | as written, the substring LIT inside MORTALITE makes a mortality label INFRASTRUCTURE |
| ImportHelpers.MortalityLabel | fati_accounts/management/commands/populate_data.py:1034-1035 | with LIT matched as a whole word, a mortality label is OUTCOMES |
| ImportHelpers.BedRuleSilent | fati_accounts/management/commands/populate_data.py:1032-1033 | the corrected infrastructure rule does not fire on a MORTALITE label |
| ImportHelpers.OutcomeRuleFires | fati_accounts/management/commands/populate_data.py:1034-1035 | the outcome rule fires on a MORTALITE label |
| ImportHelpers.GuessType | fati_accounts/management/commands/populate_data.py:1052-1064 | PERCENTAGE exactly when the raw unit has '%' or the text has TAUX or POURCENT; RATIO exactly when that fails and RATIO or a per-1000 unit is present |
| ImportHelpers.SlugifyShape | fati_accounts/management/commands/populate_data.py:890 | slugify yields only lower-case letters, digits, '_' and '-', no doubled '-', and no '-' or '_' at either end |
| ImportHelpers.CodeToken | fati_accounts/management/commands/populate_data.py:890-891 | the token holds only A-Z, 0-9 and '_' |
| ImportHelpers.BuildIndicatorCode | fati_accounts/management/commands/populate_data.py:888-894 | the code is at most 50 characters |
| ImportHelpers.FallbackShape | fati_accounts/management/commands/populate_data.py:892-893 | the fallback code of a lower-case sector is non-empty and made of code characters |
| ImportHelpers.BuildIndicatorCodeShape | fati_accounts/management/commands/populate_data.py:888-894 | for health or education the code is non-empty, at most 50 characters, and made only of A-Z, 0-9 and '_' |
| IndicatorModels.NewValue | fati_indicators/models.py:138-143 | a new value row carries its key and value, starts in status draft and has no previous value, variation, achievement rate or validator |
| IndicatorModels.ChosenTarget | fati_indicators/models.py:187 | the value's own target is used when it is set and non-zero; otherwise the indicator's target is used |
| IndicatorModels.Saved | fati_indicators/models.py:181-191 | saving changes only the variation and the achievement rate; variation times the previous value equals 100 times the change when the previous value is non-zero; achievement times the chosen target equals 100 times the value when that target is non-zero; otherwise each keeps its earlier value |
| IndicatorModels.SavedIdempotent | fati_indicators/models.py:181-191 | saving an already saved row again changes nothing |
| IndicatorModels.OwnTargetFirst | fati_indicators/models.py:187-189 | an own target of 0 falls back to the indicator's non-zero target for the achievement rate |
| IndicatorModels.TargetReached | fati_indicators/models.py:187-189 | a value equal to its own non-zero target has an achievement rate of exactly 100 |
| IndicatorModels.GeographicLevel | fati_indicators/models.py:210-218 | the level is commune exactly when a commune is set, department exactly when no commune but a department is set, region exactly when only a region is set |
| IndicatorModels.GeographicEntity | fati_indicators/models.py:220-222 | the entity is absent exactly at national level and is otherwise the commune, department or region that gives the level |
| IndicatorModels.IndicatorValue.constructor | fati_indicators/models.py:138-143 | the new object holds the fresh draft row for its key and value |
| IndicatorModels.IndicatorValue.FromRow | fati_indicators/models.py:77 | the object wraps the given stored row unchanged |
| IndicatorModels.IndicatorValue.Save | fati_indicators/models.py:181-191 | the object's row becomes the saved form of its old row for the indicator's target |
| IndicatorStore.FindByName | fati_accounts/management/commands/populate_data.py:841 | nothing is found exactly when no indicator of the sector has the name up to case; otherwise the one found has it, no match sorts before it by category and then `order`, and every earlier match sorts after it |
| IndicatorStore.FindByNameIs | fati_indicators/models.py:67-70 | the indicator ordering picks one match: a match that no match sorts before, and that sorts before every earlier match, is the one found |
| Catalog.RankFollowsCode | fati_indicators/models.py:16-23 | the seven category codes differ in their first letter, and `Rank` orders the categories as those letters are ordered; equal ranks mean equal categories |
| IndicatorStore.Fill | fati_accounts/management/commands/populate_data.py:843-853 | an indicator found by name keeps its unit, target and alert threshold where they are set and takes the imported ones only where they are empty; nothing else changes |
| IndicatorStore.Suffix | fati_accounts/management/commands/populate_data.py:880 | the collision suffix is an absolute hash taken modulo 1000, so below 1000 |
| IndicatorStore.Decide | fati_accounts/management/commands/populate_data.py:840-886 | the returned id points into the table; a creation appends exactly one indicator at the end and keeps the rest; a reuse keeps the table's length |
| IndicatorStore.CodeFor | fati_accounts/management/commands/populate_data.py:888-894 | an indicator code is at most 50 characters long |
| IndicatorStore.DecideValid | fati_accounts/management/commands/populate_data.py:867-886 | codes stay unique across the indicator table after a lookup-or-create |
| IndicatorStore.DecideReuses | fati_accounts/management/commands/populate_data.py:841-854 | when an indicator of the sector already has the cleaned name (case-insensitively), it is returned, not created, with only its empty unit, target and threshold filled |
| IndicatorStore.DecideCreates | fati_accounts/management/commands/populate_data.py:856-886 | a created indicator has the cleaned name, the sector and the imported defaults, its code is the plain code or the suffixed one, no indicator of the sector had that name and no earlier indicator had that code |
| IndicatorStore.DecideNamed | fati_accounts/management/commands/populate_data.py:867-886 | the returned indicator has the sector and the name, except when both the plain and the suffixed code already belonged to other indicators, in which case the one holding the suffixed code is returned unchanged |
| IndicatorStore.DecideIdempotent | fati_accounts/management/commands/populate_data.py:840-886 | importing the same indicator twice creates it at most once: the second call returns the same id without creating anything |
| IndicatorStore.Written | fati_accounts/management/commands/populate_data.py:906-919 | updating a stored row keeps its key and writes the imported value, status validated, the source and the indicator's target, while its variation, achievement rate and previous value stay as stored |
| IndicatorStore.Inserted | fati_accounts/management/commands/populate_data.py:906-919 | a row inserted for a new key has that key, the imported value, status validated, the source and the indicator's target, and no previous value or variation |
| IndicatorStore.Upsert | fati_accounts/management/commands/populate_data.py:896-919 | an upsert adds at most one row and leaves every row with a different key untouched |
| IndicatorStore.UpsertStores | fati_accounts/management/commands/populate_data.py:896-919 | with unique keys before, keys stay unique and exactly one row has the key, holding the imported value, status validated and the source |
| IndicatorStore.UpsertIdempotent | fati_accounts/management/commands/populate_data.py:896-919 | repeating the same upsert changes nothing |
| IndicatorStore.WrittenAgain | fati_accounts/management/commands/populate_data.py:913-918 | rewriting a row with the same defaults gives the same row and keeps its key |
| IndicatorStore.InsertedAgain | fati_accounts/management/commands/populate_data.py:906-919 | updating an inserted row with the defaults it was inserted with changes nothing |
| IndicatorStore.Database.constructor | fati_accounts/management/commands/populate_data.py:89-123 | a fresh database has no indicators and no values |
| IndicatorStore.Database.GetOrCreateIndicator | fati_accounts/management/commands/populate_data.py:827-886 | the indicator table and the returned id and created flag are those of the lookup-or-create decision; values are untouched |
| IndicatorStore.Database.Apply | fati_accounts/management/commands/populate_data.py:841-886 | the indicator table, id and flag follow the decision for the given cleaned name and codes; values are untouched |
| IndicatorStore.Database.UpsertIndicatorValue | fati_accounts/management/commands/populate_data.py:896-919 | the value rows become the upsert of the key with empty period, using the indicator's own target; indicators are untouched |
| IndicatorViews.SummaryAsWritten | fati_indicators/views.py:72-83 | the view as written answers 500 exactly when there are two or more yearly averages (a negative index on the still unevaluated QuerySet raises), and otherwise 200 with 'stable' |
| IndicatorViews.SummaryNeverMoves | fati_indicators/views.py:79-89 | as written the view never reports 'increasing' or 'decreasing'; averages of 100 then 120 give a 500 where the intended rule says increasing |
| IndicatorViews.SummaryTrend | fati_indicators/views.py:79-89 | the trend the code evidently intends, with the averages read from the evaluated list (never reached as written, see Findings): increasing exactly when there are at least two yearly averages, the one before last is positive and the last rose by more than 5 percent of it; decreasing exactly when it fell by more than 5 percent; stable otherwise |
| IndicatorViews.ChangeBounds | fati_indicators/views.py:84-89 | for a positive previous average, the percentage change exceeds 5 (or is below -5) exactly when the difference times 100 exceeds 5 (or is below -5) times the previous average |
| IndicatorViews.TrendOfLastTwo | fati_indicators/views.py:81-83 | under the intended rule only the last two yearly averages decide the trend (the view as written fails before reading them, see Findings) |
| IndicatorViews.VisibleValues | fati_indicators/views.py:124-138 | the listed values are exactly the stored values inside the user's assigned territory (all values for roles without a territory filter) |
| IndicatorViews.PendingValues | fati_indicators/views.py:180-185 | the pending list holds exactly the visible values whose status is pending |
| IndicatorViews.RejectNarrowerThanValidate | fati_indicators/views.py:146-172 | whoever may reject may validate; the two rights differ exactly for sector users; local managers, contributors and viewers have neither |
| IndicatorViews.ValidatedRow | fati_indicators/views.py:153-157 | a validated value has status validated, the validating user as validator and the current time as validation time, with its key and value unchanged |
| IndicatorViews.RejectedRow | fati_indicators/views.py:174-175 | a rejected value has status rejected and keeps its validator, validation time, key and value |
| IndicatorViews.Validate | fati_indicators/views.py:140-160 | a value outside the user's queryset gives 404, a user without the right gives 403, and in both cases nothing changes; otherwise the answer is 200 and only that value is replaced by its validated form |
| IndicatorViews.Reject | fati_indicators/views.py:162-178 | a value outside the user's queryset gives 404, a user who is neither admin nor institution gives 403, and in both cases nothing changes; otherwise the answer is 200 and only that value is replaced by its rejected form |
| IndicatorViews.Compare | fati_indicators/views.py:219-246 | a missing indicator or year parameter gives 400; otherwise every entry comes from a validated value of that indicator and year, and every such value has an entry |
| LegacyImport.GetRegionSpec | import_json_data.py:49-55 | an empty name or SENEGAL (after trimming, in upper case) gives no region; otherwise a region is found exactly when some region's upper-cased name matches, and it is the last such region |
| LegacyImport.Sanitize | import_json_data.py:73 | the cleaned name has the length of the upper-cased name and replaces each character outside A-Z, a-z and 0-9 by '_' |
| LegacyImport.SanitizeChars | import_json_data.py:73 | the cleaned name holds only upper-case letters, digits and '_' |
| LegacyImport.HealthCodeShape | import_json_data.py:73-79 | a health code is the first four characters of the category in upper case, '_' and the first 40 characters of the cleaned name, so at most 49 characters |
| LegacyImport.EducationCodeShape | import_json_data.py:129-133 | an education code is 'EDU_' followed by at most 40 upper-case letters, digits and '_' |
| LegacyImport.GetOrCreateNamed | import_json_data.py:76-83 | a lookup by name returns an indicator of that name, either from the table unchanged or appended as the new indicator; it fails with MultipleObjectsReturned exactly when more than one indicator has the name; it creates only when none has it |
| LegacyImport.NoneNamed | import_json_data.py:76-77 | no indicator with the name means a name count of zero |
| LegacyImport.GetOrCreateKeepsNames | import_json_data.py:76-83 | with distinct names before, the lookup never fails and names stay distinct |
| LegacyImport.AtMostOneNamed | import_json_data.py:76-77 | with distinct names, at most one indicator has a given name |
| LegacyImport.NamedWitness | import_json_data.py:76-77 | a positive name count has an indicator of that name as witness |
| LegacyImport.UnnamedWhenUncounted | import_json_data.py:76-77 | a name count of zero means no indicator has the name |
| LegacyImport.Collected | import_json_data.py:89-92 | a collected value has the indicator, region, year and value, status validated, no department or commune, an empty period and no derived fields |
| LegacyImport.HealthCell | import_json_data.py:85-92 | a column whose key is not four digits contributes nothing; otherwise at most one value is collected, for the indicator and current region, with no department, the column's year and the cleaned value |
| LegacyImport.HealthCellsShape | import_json_data.py:85-92 | every value collected from a health row belongs to the row's indicator and current region and has no department |
| LegacyImport.HealthGroupsUnkeyed | import_json_data.py:63-92 | every value the health workbook collects has no department |
| LegacyImport.EducationGroupsUnkeyed | import_json_data.py:104-146 | every value the education workbook collects has no department |
| LegacyImport.HeaderRowSkipped | import_json_data.py:68-70 | a row without a period whose label contains 'indicateurs' changes nothing |
| LegacyImport.IntLiteralDigits | import_json_data.py:117 | a string accepted as an integer literal holds only digits once underscores are removed |
| LegacyImport.SchoolYearRaises | import_json_data.py:117 | a header cell '2019-2020' matches the four-digit prefix but makes the integer conversion raise ValueError |
| LegacyImport.InfoDefaultName | import_json_data.py:121-127 | without an 'Indicateurs' part holding ':' the indicator name stays 'Inconnu' |
| LegacyImport.NoYearsNothingCollected | import_json_data.py:107-146 | before any period header row no education value is collected and the years stay empty |
| LegacyImport.RerunDuplicatesSql | import_json_data.py:95 | with SQL semantics, where NULL department never conflicts, running the same bulk insert twice stores the value twice, breaking the unique key |
| LegacyImport.SqlAppendsUnkeyed | import_json_data.py:95 | rows with no department never clash under SQL equality, so the insert appends all of them after the stored rows |
| LegacyImport.BulkCreateSpec | import_json_data.py:95 | an insert that ignores conflicts keeps every stored row in place, keeps keys unique and leaves every pending key stored |
| LegacyImport.BulkCreateIdempotent | import_json_data.py:95 | repeating the same conflict-ignoring insert changes nothing |
| LegacyImport.AllPresent | import_json_data.py:95 | when every pending key is already stored the insert changes nothing |
| LegacyImport.HealthNotObjectRaises | import_json_data.py:57-63 | a health document that is not an object raises AttributeError before anything is created or inserted, and the education workbook is not read |
| LegacyImport.ScriptAppends | import_json_data.py:153-154 | the script appends every collected health value, then every collected education value, after the values stored before it, skipping none; a workbook that raised appends nothing, and a health error stops the education import |
| LegacyImport.CommitAppends | import_json_data.py:95 | committing a batch that did not raise appends all its values, in order, to the stored ones; a batch that raised stores nothing |
| LegacyImport.HealthRowsStop | import_json_data.py:67-92 | once a row raises, later rows of the sheet change nothing |
| LegacyImport.HealthSheetsStop | import_json_data.py:65-92 | once a sheet raises, later sheets change nothing |
| LegacyImport.HealthGroupsStop | import_json_data.py:63-92 | once a category raises, later categories change nothing |
| LegacyImport.EducationRowsStop | import_json_data.py:109-146 | once a row raises, later rows of the sheet change nothing |
| LegacyImport.EducationSheetsStop | import_json_data.py:106-146 | once a sheet raises, later sheets change nothing |
| LegacyImport.EducationGroupsStop | import_json_data.py:104-146 | once a category raises, later categories change nothing |
| LegacyImport.GetOrCreateByName | import_json_data.py:76-83 | the indicator table and result follow the lookup by name; on an error nothing changes; values are untouched |
| LegacyImport.CollectHealthCells | import_json_data.py:85-92 | the loop collects exactly the values of the health row's cells, stopping at the first error |
| LegacyImport.HealthCellsStop | import_json_data.py:85-92 | the first cell that raises gives the row's error |
| LegacyImport.HealthCellsErr | import_json_data.py:85-92 | once a prefix of the cells raises, the rest of the row changes nothing |
| LegacyImport.HealthRowStep | import_json_data.py:68-92 | one health row updates the indicators, the pending values and the current region as the row rule says; values are untouched |
| LegacyImport.HealthSheet | import_json_data.py:66-92 | the loop over a sheet's rows starts with no region and gives the pending values and the error of the sheet rule |
| LegacyImport.HealthGroup | import_json_data.py:65-92 | the loop over a category's sheets gives the pending values and the error of the category rule; a sheet whose rows are not iterable raises TypeError |
| LegacyImport.InsertCollected | import_json_data.py:95 | the stored values become the database's insert of the pending values, which skips a value only when its key equals a stored one with no NULL column; indicators are untouched |
| LegacyImport.ProcessHealth | import_json_data.py:57-96 | the health import leaves the tables its rule gives: a document or category that is not an object raises AttributeError and a sheet whose rows are not iterable raises TypeError, keeping the indicators created before; otherwise the pending values are inserted under SQL equality unless a row raised |
| LegacyImport.ReadYears | import_json_data.py:117 | the loop reads the same years mapping, or the same error, as the header rule |
| LegacyImport.YearsStop | import_json_data.py:117 | once a header cell raises, the rest of the row changes nothing |
| LegacyImport.ReadInfo | import_json_data.py:122-127 | the loop reads the same indicator name and unit as the info rule |
| LegacyImport.CollectEducationCells | import_json_data.py:139-146 | the loop collects exactly the values of the education row for each year column, stopping at the first error |
| LegacyImport.EducationCellsStop | import_json_data.py:140-146 | once a year column raises, the remaining columns change nothing |
| LegacyImport.EducationRowStep | import_json_data.py:110-146 | one education row updates the indicators, the pending values, the years and the current indicator as the row rule says; values are untouched |
| LegacyImport.EducationSheet | import_json_data.py:107-146 | the loop over a sheet's rows starts with no years and no indicator and gives the pending values and the error of the sheet rule |
| LegacyImport.EducationGroup | import_json_data.py:106-146 | the loop over a category's sheets gives the pending values and the error of the category rule; a sheet whose rows are not iterable raises TypeError |
| LegacyImport.ProcessEducation | import_json_data.py:98-151 | the education import leaves the tables its rule gives, with the same AttributeError and TypeError for a document, category or sheet of the wrong shape, and the pending values inserted under SQL equality unless an error stopped it |
| LegacyImport.RunScript | import_json_data.py:153-154 | the script runs the health import on any decoded document, then the education import unless the health import raised, leaving the tables of the script rule |
| Normalization.FoldChar | fati_accounts/management/commands/populate_data.py:927-928 | decomposing a character and dropping its combining marks leaves an ASCII character unchanged |
| Normalization.FoldAscii | fati_accounts/management/commands/populate_data.py:927-928 | decomposition and mark removal leave ASCII text unchanged |
| Normalization.SubRuns | fati_accounts/management/commands/populate_data.py:929 | replacing each run of characters outside A-Z, a-z and 0-9 by one space leaves only letters, digits and single spaces, and keeps a leading letter or digit |
| Normalization.NormalizeOpt | fati_accounts/management/commands/populate_data.py:924-926 | a missing value normalizes to the empty string |
| Normalization.StripIsSlice | fati_accounts/management/commands/populate_data.py:929 | stripping keeps a contiguous slice of the text with no white space at either end |
| Normalization.StripKeepsShape | fati_accounts/management/commands/populate_data.py:929 | stripping text of letters, digits and single spaces keeps that shape and removes the end spaces |
| Normalization.UpperKeepsShape | fati_accounts/management/commands/populate_data.py:929 | upper-casing stripped text of letters, digits and single spaces gives the canonical form |
| Normalization.NormalizeCanonical | fati_accounts/management/commands/populate_data.py:924-930 | a normalized label holds only upper-case letters, digits and single inner spaces |
| Normalization.SubRunsCanonical | fati_accounts/management/commands/populate_data.py:929 | run replacement leaves text that is already letters, digits and single spaces unchanged |
| Normalization.SpaceThenCanonical | fati_accounts/management/commands/populate_data.py:929 | run replacement leaves such text starting with one space unchanged too |
| Normalization.UpperOfUpper | fati_accounts/management/commands/populate_data.py:929 | upper-casing text of capitals, digits and spaces changes nothing |
| Normalization.CanonicalIsAscii | fati_accounts/management/commands/populate_data.py:924-930 | a canonical label is ASCII |
| Normalization.CanonicalIsFixed | fati_accounts/management/commands/populate_data.py:924-930 | normalizing a canonical label gives it back |
| Normalization.NormalizeIdempotent | fati_accounts/management/commands/populate_data.py:924-930 | normalizing twice is the same as normalizing once |
| Numbers.Pow10 | fati_accounts/management/commands/populate_data.py:955 | a power of ten is at least 1 |
| Numbers.Mantissa | fati_accounts/management/commands/populate_data.py:955 | a decimal mantissa accepted by float() holds at most one '.' |
| Numbers.Scale | fati_accounts/management/commands/populate_data.py:955 | an exponent scale factor is positive |
| Numbers.UnsignedNoExponent | fati_accounts/management/commands/populate_data.py:955 | without an exponent, float() gives the mantissa's digits divided by ten to the number of decimals |
| Numbers.PlainDecimal | fati_accounts/management/commands/populate_data.py:955 | text of digits and dots has no sign and no exponent for float() |
| Numbers.PyFloatNat | fati_accounts/management/commands/populate_data.py:955 | float() of a non-empty digit string is its decimal value |
| Numbers.PyFloatDecimal | fati_accounts/management/commands/populate_data.py:955 | float() of digits, a dot and digits is the joined digits divided by ten to the number of decimals |
| Numbers.MantissaDecimal | fati_accounts/management/commands/populate_data.py:955 | the mantissa of digits, a dot and digits is the joined digits and the number of decimals |
| Numbers.Squeeze | fati_accounts/management/commands/populate_data.py:942 | after the clean-up no space, percent sign or no-break space is left |
| Numbers.Separators | fati_accounts/management/commands/populate_data.py:944-952 | after separator handling no comma is left, and text without a comma is unchanged |
| Numbers.ParseNumber | fati_accounts/management/commands/populate_data.py:932-940 | None gives None, an integer or a float is returned as a float, and blank text or a placeholder ('-', '--', '...', 'NA', 'N/A') gives None |
| Numbers.SeparatorsKeepDigits | fati_accounts/management/commands/populate_data.py:944-952 | separator handling never changes the text once commas and dots are removed |
| Numbers.SeparatorsLastMark | fati_accounts/management/commands/populate_data.py:944-948 | when both marks occur and the last one occurs once, it becomes the decimal point and every other mark is dropped |
| Numbers.SeparatorsDecimalComma | fati_accounts/management/commands/populate_data.py:949-950 | a single comma with no dot becomes the decimal point |
| Numbers.SeparatorsThousands | fati_accounts/management/commands/populate_data.py:951-952 | several commas with no dot are all dropped as thousands separators |
| Numbers.CleanValue | import_json_data.py:7-17 | None, '' and ' ' give no value, an integer or a float is returned as a float, and a list or an object makes the cleaner raise |
| Numbers.KeepLastDotSpec | import_json_data.py:12-14 | with several dots, only the last one is kept: the result holds exactly one dot and the same text once dots are removed |
| Numbers.CleanTextShape | import_json_data.py:10-14 | after the clean-up no comma is left and at most one dot |
| Numbers.CleanTextGroups | import_json_data.py:10-14 | digits grouped with two commas become the first two groups joined, a dot and the last group |
| Numbers.ParseNumberGroups | fati_accounts/management/commands/populate_data.py:932-957 | digits grouped with two commas parse as the joined digits |
| Numbers.GroupsSeparated | fati_accounts/management/commands/populate_data.py:951-952 | digits grouped with two commas lose both commas |
| Numbers.CleanersDisagree | fati_accounts/management/commands/populate_data.py:932-957 | the two importers read the same thousands-grouped text differently: the pipeline reads '1,234,567' as 1234567, the legacy script as 1234.567 |
| Populate.UpsertAllUnique | fati_accounts/management/commands/populate_data.py:372-382 | upserting every year value of an indicator keeps one stored value per key |
| Populate.UpsertAllStores | fati_accounts/management/commands/populate_data.py:372-382 | after the upserts, each year's last imported value is the one stored for that indicator, place and year |
| Populate.UpsertPairs | fati_accounts/management/commands/populate_data.py:372-382 | the loop leaves the stored values of the upsert rule, leaves indicators alone and counts one imported value per year value |
| Populate.Obtain | fati_accounts/management/commands/populate_data.py:358-369 | the lookup-or-create returns an indicator present in the table and leaves values and the imported count alone |
| Populate.Store | fati_accounts/management/commands/populate_data.py:371-382 | storing year values leaves indicators alone and adds their number to the imported count |
| Populate.ObtainAdvance | fati_accounts/management/commands/populate_data.py:358-369 | the progress after the lookup is the table of the decision, with the created count raised exactly when an indicator was created |
| Populate.ObtainOutcome | fati_accounts/management/commands/populate_data.py:358-369 | the same, stated field by field |
| Populate.ImportOutcome | fati_accounts/management/commands/populate_data.py:351-382 | importing one indicator row is the lookup-or-create followed by the upserts at the resolved place with the file's source |
| Populate.StoreOutcome | fati_accounts/management/commands/populate_data.py:371-382 | the progress after storing holds the upserted values and the raised count |
| Populate.ObtainValid | fati_accounts/management/commands/populate_data.py:358-369 | the lookup-or-create keeps indicator codes unique and every value pointing to an existing indicator with unique keys |
| Populate.StoreValid | fati_accounts/management/commands/populate_data.py:371-382 | storing year values keeps that invariant |
| Populate.HealthEntry | fati_accounts/management/commands/populate_data.py:342-349 | a row is imported only with a non-empty indicator label that does not look like a header and at least one year value |
| Populate.HealthRowsValid | fati_accounts/management/commands/populate_data.py:331-382 | a sheet's rows keep the invariant of the progress |
| Populate.HealthSheetsValid | fati_accounts/management/commands/populate_data.py:327-382 | a group's sheets keep the invariant |
| Populate.HealthGroupsValid | fati_accounts/management/commands/populate_data.py:323-382 | the whole health document keeps the invariant |
| Populate.StorePairs | fati_accounts/management/commands/populate_data.py:371-382 | the loop resolves the place once and upserts every year value there, leaving indicators alone |
| Populate.ImportPairs | fati_accounts/management/commands/populate_data.py:351-382 | the database after one indicator row is the one the import rule gives |
| Populate.ReadHealthEntry | fati_accounts/management/commands/populate_data.py:342-349 | the row's label and year values are read exactly as the entry rule says |
| Populate.HealthRowStep | fati_accounts/management/commands/populate_data.py:333-382 | one row updates the database, the counts and the current place label as the row rule says |
| Populate.HealthSheet | fati_accounts/management/commands/populate_data.py:331-382 | the loop over a sheet's rows starts with no place label and gives the progress of the sheet rule |
| Populate.HealthGroup | fati_accounts/management/commands/populate_data.py:327-382 | the loop over a group's sheets gives the progress of the group rule |
| Populate.ImportHealthJson | fati_accounts/management/commands/populate_data.py:308-389 | a missing or unreadable file imports nothing and changes nothing; a document that is not an object raises AttributeError and changes nothing; otherwise the database and the returned count are those of the document rule with source json:file name |
| Text.Upper | fati_accounts/management/commands/populate_data.py:929 | str.upper on ASCII letters: same length, each lower-case letter replaced by its capital |
| Text.PyUpperShape | import_json_data.py:53 | Python's str.upper leaves no lower-case letter and at most doubles the length (a sharp s becomes SS) |
| Text.Lower | fati_accounts/management/commands/populate_data.py:875 | str.lower: same length, each capital replaced by its lower-case letter |
| Text.ContainsWitness | import_json_data.py:70 | a substring test that succeeds has a position where the text occurs |
| Text.TrimLeftSpec | fati_accounts/management/commands/populate_data.py:938 | left stripping drops exactly the leading characters to be dropped |
| Text.TrimRightSpec | fati_accounts/management/commands/populate_data.py:938 | right stripping drops exactly the trailing characters to be dropped |
| Text.StripCharsIsSlice | fati_accounts/management/commands/populate_data.py:938 | stripping a set of characters keeps a contiguous slice with none of them at either end |
| Text.SplitWs | fati_accounts/management/commands/populate_data.py:840 | str.split() gives non-empty words without white space |
| Text.TakeWhile | fati_accounts/management/commands/populate_data.py:955 | the longest prefix whose characters all pass the test, stopping at the first one that fails |
| Text.Remove | fati_accounts/management/commands/populate_data.py:946 | removing a character leaves no occurrence of it and adds nothing |
| Text.Replace | fati_accounts/management/commands/populate_data.py:946 | str.replace on one character: same length, each occurrence replaced, everything else kept |
| Text.Count | fati_accounts/management/commands/populate_data.py:949 | str.count of one character: zero exactly when it is absent |
| Text.RFind | fati_accounts/management/commands/populate_data.py:945 | str.rfind: -1 exactly when the character is absent, otherwise the position of its last occurrence |
| Text.Find | import_json_data.py:126 | the position of the first occurrence of a character |
| Text.Split | import_json_data.py:122 | str.split on one character gives one more part than occurrences, parts without the separator, and joins back to the text |
| Text.NatToStringRoundTrip | fati_accounts/management/commands/populate_data.py:251 | the decimal text of a number reads back as that number |
| Text.NatToStringInjective | fati_accounts/management/commands/populate_data.py:251 | different numbers give different decimal texts |
| Text.Pad4RoundTrip | fati_accounts/management/commands/populate_data.py:1071 | a number written with at least four digits reads back as that number |
| Text.Pad4Injective | fati_accounts/management/commands/populate_data.py:1071 | different numbers give different four-digit texts |
| Workflows.NewInstance | fati_workflows/models.py:69-77 | a new workflow instance is a draft at step 0, not completed, for the given definition, entity and initiator |
| Workflows.DefaultStepName | fati_workflows/views.py:56 | a step without a name is called 'Étape' followed by its one-based position |
| Workflows.StepFor | fati_workflows/views.py:54-58 | a created step belongs to the instance, has its position as order, is pending and not completed, and takes the configured name and role or the defaults ('Étape n', 'contributor') |
| Workflows.StepsFor | fati_workflows/views.py:52-59 | one step is created per configured step, in order |
| Workflows.ConfigText | fati_workflows/views.py:54-58 | a missing key gives the default, a string is stored as it is, and a JSON null cannot be stored in the NOT NULL column (IntegrityError) |
| Workflows.ParseEntry | fati_workflows/views.py:53-58 | an entry that is not an object has no get (AttributeError); otherwise it is refused exactly when its name or role is JSON null, and a name or role is configured exactly when its key is present |
| Workflows.ParseEntries | fati_workflows/views.py:53-58 | the entries before the first one that raises are all laid out, in order, and the error is that entry's; with no error every entry is laid out |
| Workflows.ConfigOf | fati_workflows/views.py:52-53 | a configuration that is not iterable raises TypeError before any step |
| Workflows.ParseStop | fati_workflows/views.py:53-58 | once an entry raises, later entries change nothing |
| Workflows.LayOutSteps | fati_workflows/views.py:53-58 | walking the entries in order yields exactly the layout rule's steps for the entries before the first one that raises, and that entry's exception |
| Workflows.StepsOrdered | fati_workflows/views.py:52-59 | created steps are pending and strictly ordered by position |
| Workflows.StatusFor | fati_workflows/views.py:72-79 | exactly submit, validate, reject and publish are actions, mapped to submitted, validated, rejected and published |
| Workflows.CurrentPendingStep | fati_workflows/views.py:91-94 | the step found is a pending step of the instance at its current position; when none is found no such step exists |
| Workflows.Transition | fati_workflows/views.py:61-116 | an unknown instance gives 404 and an unknown action 400; otherwise no instance or step is added or removed |
| Workflows.TransitionStatus | fati_workflows/views.py:86-88 | a transition sets the instance's status from the action and changes no other instance |
| Workflows.TransitionStep | fati_workflows/views.py:96-109 | the current step advances by one exactly on validate when a pending current step exists; reject and publish set the completion time, submit and validate keep it |
| Workflows.TransitionSteps | fati_workflows/views.py:96-101 | the pending current step, when there is one, becomes completed by the user at that time with the comments, and no other step changes |
| Workflows.ValidateTwice | fati_workflows/views.py:91-105 | after a validate that completes a step, the current step has moved on and the pending step found is no longer the same |
| Workflows.NewAlert | fati_workflows/models.py:221 | a new alert is unread with no reader or read time and keeps its severity, region and recipients |
| Workflows.VisibleAlerts | fati_workflows/views.py:137-149 | a superuser sees every alert; anyone else sees exactly the alerts addressed to them or in their assigned region, where no assigned region matches alerts without one |
| Workflows.SeverityCountsCover | fati_workflows/models.py:157-162 | the counts for the five severities add up to the number of alerts |
| Workflows.CountAlerts | fati_workflows/views.py:167 | the loop counts exactly the alerts of the severity |
| Workflows.BySeverity | fati_workflows/views.py:161-169 | one entry per severity, in declaration order, holding the number of visible alerts of that severity |
| Workflows.UnreadAlerts | fati_workflows/views.py:151-159 | the unread list holds exactly the visible alerts that are not read |
| Workflows.MarkedRead | fati_workflows/models.py:249-254 | marking an alert read records the reader and the time and keeps its severity, region and recipients |
| Workflows.Alerts.constructor | fati_workflows/views.py:129 | the store holds the given alerts |
| Workflows.Alerts.Mark | fati_workflows/models.py:249-254 | only the alert at the position is replaced by its read form, read by the given user at the given time |
| Workflows.Alerts.MarkAsRead | fati_workflows/views.py:135-176 | 404 with no change when there is no alert at the pk or it is outside the requester's queryset (not a superuser, not a recipient, another region); otherwise 200 and only that alert is marked read by the requester |
| Workflows.Alerts.MarkAllRead | fati_workflows/views.py:178-186 | every visible unread alert is marked read by the user, others are untouched, afterwards every visible alert is read, and the count returned is the number that were unread |
| Workflows.UnreadAlertPositions | fati_workflows/views.py:181 | the positions listed are of visible unread alerts |
| Workflows.MarkedCountIsUnread | fati_workflows/views.py:181-185 | the number of alerts marked equals the number of unread visible alerts |
| Workflows.Engine.constructor | fati_workflows/views.py:33-35 | the engine holds the given instance and step tables |
| Workflows.Engine.PerformCreate | fati_workflows/views.py:47-59 | the new instance is appended as a draft at step 0; the steps of the entries before the first one that raises are appended in order, as the step layout rule gives them, and that entry's exception is returned; the instance and those steps stay |
| Workflows.Engine.ApplyTransition | fati_workflows/views.py:61-116 | an unknown instance or action answers 404 or 400 and changes nothing; otherwise the answer is 200 and the tables become those of the transition rule |

## Left out

- IndicatorViews.TrendOfLastTwo: states a property of the intended trend rule (IndicatorViews.SummaryTrend); the view as written answers 500 before it reads any average once there are two (IndicatorViews.SummaryAsWritten, and the Findings row).
- Reading files and I/O: CSV and JSON files, the CSV encoding-fallback loop, `stdout` messages and the database settings of `import_json_data.py`. Each JSON document is an input value, and a missing or unreadable file is an input flag.
- Clocks: every timestamp is a parameter (`now`, `today`).
- Randomness: random synthetic data (`generate_synthetic_values`, `ensure_facilities`, `ensure_alerts`) and the random generator are not part of this model. The numeric clamp those generators use is modelled in `Command.Clamp`.
- IndicatorStore.Decide: among several indicators of the sector whose names match up to case and that share category and `order`, the database sorts by name under its collation and then in no set order; the model takes the lowest position. A table built by the command never holds two matches (IndicatorStore.DecideValid), and with one match the choice is forced (IndicatorStore.DecideReuses).
- IndicatorStore.Upsert: when the value table already holds two or more rows with the key, `update_or_create` raises MultipleObjectsReturned, while the model updates the first of them. Such rows come only from other writers, such as a rerun of the older script (LegacyImport.RerunDuplicatesSql). The command's own upserts keep one row per key (IndicatorStore.UpsertStores). The update path follows Django 4.2 and later, which saves only the fields of `defaults`; earlier versions also wrote the recomputed variation and achievement rate.
- IndicatorStore.Database.UpsertIndicatorValue: inherits the IndicatorStore.Upsert gap for a key already stored twice.
- IndicatorStore.Suffix: Python's `hash()` is salted per process, so the name hash is a parameter. The model states only that the suffix is below 1000.
- Passwords and tokens: password hashing is not modelled. A stored password is the secret itself, and `None` stands for an unusable password. Token keys are random in the source and are parameters here.
- Email: `normalize_email` is a parameter, because its code is not part of this model.
- Text: characters are limited to Latin-1. NFKD decomposition and `str.upper` use a table for that range only. `slugify` and the regular expressions are written out over that alphabet.
- Numbers: floating point is modelled by exact reals. `float()` accepts the decimal and exponent grammar over ASCII digits. `inf`, `nan` and digit-group underscores in floats are not modelled.
- Rounding: `round(…, 2)` on scores and rates, and the value formatting in `value_formatted`, are not modelled.
- Audit.QualitySummary: the score is not rounded to two decimals.
- ORM: querysets are sequences of rows. Aggregations are computed over those sequences. `select_related`, transactions and the batch size of `bulk_create` are not modelled.
- Case-insensitive filters: `icontains` and `iexact` compare the texts lower-cased by `Text.LowerChar`, which maps the ASCII capitals A-Z and the Latin-1 capitals À-Þ (except ×) to their small letters. Case folding outside Latin-1 is not modelled.
- Field length: database field lengths (`max_length`) are not enforced, except the 50-character indicator code the code truncates itself.
- Whitespace trimming: serializer `CharField` trimming is modelled only for the password fields.
- Login format: the format checks of the login serializer are not modelled.
- Query parameters: a value that `int()` cannot read is not modelled.
- Dashboards.Store.Share: a missing user id in the request (a foreign-key error) is not modelled.
- Submission uniqueness: the `unique_together` of `DataSubmission` is not enforced by the submission methods. Those methods only update existing rows.
- Code that references the missing `Facility` model or the missing `validation_status` field cannot run as written. `Dashboards.Store.Data` models only how it fails: the import error at the start of `DashboardViewSet._get_widget_data`. Its per-type branches, `DashboardDataViewSet.list`, `SystemMetricViewSet.dashboard_stats` and `StatsViewSet` are not part of this model.
- Dashboards.WidgetsOf: widgets with the same row and column are kept in table order, while the database leaves their order unspecified.
- Json.Repr: Python's `repr` is modelled only in outline. A string is always put in single quotes, unescaped, while Python switches to double quotes for a text holding a single quote and escapes backslashes and control characters. An object with a repeated key prints the repetition, while the loaded dictionary holds the key once. A float prints its source text, while Python prints the shortest text that reads back as the same double (`1e5` prints as `100000.0`). They matter wherever `str()` meets a cell that is not a string: the first-column and year-header reads of the importers, number parsing, and a step name or role configured as a non-string.
- Json: an object with a repeated key is iterated with the repetition, while the dictionary `json.loads` builds holds each key once. Lookups (`Json.Get`, and the first-column reads `EducationImport.FirstValue` and `LegacyImport.FirstText`) do match that dictionary.
- Read-only summaries: `IndicatorViewSet` `values`, `by_sector` and `IndicatorValueViewSet.statistics` are ORM aggregations with no decision logic, so they are not part of this model.
- Geography: GIS code, centroids, shapefile and seed commands, and the geography CSV sync of the pipeline are not part of this model.
- Framework glue: admin, URL, app and migration modules, field-only serializers and `migrate_contributors.py` are not part of this model.

## Findings

| source | as written | input that shows it | evidently intended | confidence | as-written member | corrected member |
|---|---|---|---|---|---|---|
| fati_accounts/management/commands/populate_data.py:1032-1035 | the infrastructure rule tests the token LIT as a substring before the outcomes rule runs | the health label "Mortalité" (normal form MORTALITE) contains LIT and is filed as INFRASTRUCTURE | a mortality indicator is an OUTCOMES indicator, so LIT should only match as a whole word (LIT, LITS); the importers in this model keep the rule as written | not executed | ImportHelpers.MortalityLabelAsWritten | ImportHelpers.MortalityLabel |
| import_json_data.py:95 | `bulk_create(ignore_conflicts=True)` relies on the unique key, but the imported values have a NULL department and commune, and SQL never treats two NULL keys as equal | running the script twice on the same file inserts every health and education value a second time | re-running the import adds nothing already stored, one value per (indicator, region, department, commune, year, period); the script in this model keeps the SQL insert, and LegacyImport.ScriptAppends states what it stores | not executed | LegacyImport.RerunDuplicatesSql | LegacyImport.BulkCreateSpec |
| fati_accounts/serializers.py:59-63 | `validate_role` maps the legacy value 'viewers', but the model's choice field rejects 'viewers' before `validate_role` runs | a signup with role 'viewers' is refused as an invalid choice | 'viewers' is accepted and stored as the viewer role | not executed | Accounts.RoleFieldAsWritten | Accounts.RoleField |
| fati_indicators/views.py:79-83 | `yearly_values` is indexed with -1 and -2 while it is still a QuerySet, and a QuerySet refuses negative indexes even after `len()` has filled its cache | an indicator with validated values 100.0 in 2019 and 120.0 in 2020: `summary` raises and answers 500 | the last two yearly averages are read from the evaluated list, so the trend is 'increasing' here | not executed | IndicatorViews.SummaryAsWritten | IndicatorViews.SummaryTrend |
