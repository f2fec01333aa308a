# ETMS survey, session and analytics core in Dafny

ETMS is an employee-turnover management console. It has a React client and a Django REST backend. This project models the parts of it that hold rules rather than presentation:

- **Session** (`session.dfy`): the client's authentication provider. It covers `initAuth`, `login`, `refreshToken`, `logout` and the `isAuthenticated` flag. The state is a class with the user, the loading flag, the two stored tokens and the shared Authorization header.
- **Route guard and permissions** (`route_guard.dfy`, `permissions.dfy`):
  - the `RequireAuth` decision: spinner, login redirect, role-dashboard redirect or render;
  - the routes of `App.tsx`;
  - the three role permission classes of the backend.
- **Survey builder** (`survey_builder.dfy`): the HR page that edits an ordered list of questions. It covers add and update, the option edits, removal and the `moveQuestion` handler. The page passes `moveQuestion` to each question item, but no drag handler there calls it, so the move is modelled as an operation the page could perform rather than one it performs. It also covers the checks and the sequence of requests made by `saveSurvey`. Two invariants are proved to hold under every edit:
  - `order` equals the question's position;
  - options are null exactly for types without choices.
- **Survey list** (`survey_list.dfy`): the HR page's employee selection, assignment payloads, search filters, category labels and local delete.
- **Survey response form** (`survey_response.dfy`): the employee page's answer record, the required-answer check, the submission payload and the rebuild of stored answers.
- **Backend survey models and views** (`scoring.dfy`, `survey_views.dfy`):
  - `SurveyResponse.calculate_score`, with Python's `dict.get`, `str()` and `float()` written out, including the cases that raise;
  - the uniqueness constraints;
  - the completion rate;
  - the role scoping of assignments;
  - `submit`, with its weighted total and its partial writes when scoring raises;
  - the `score` action that re-totals an assignment.
  The database is a class whose tables are sequences of rows.
- **Analytics** (`grouping.dfy`, `analytics.dfy`, `turnover.dfy`):
  - `turnover_analytics`: role scoping, risk counters, high-risk list, grouping by department and by (department, risk), pending and completed counts, top five TURNOVER factors;
  - `EmployeeTurnover.save`, with its tenure in months.
- **Round trip** (`roundtrip.dfy`): the form's answers go to `submit`, and the stored rows come back through `responses/`.

Shared pieces:
- `basics.dfy`: JavaScript `trim`, Python `strip`, decimal texts, substring search.
- `json.dfy`: JSON values, with JavaScript truthiness and Python's view of them.
- `domain.dfy`: roles, question types, forms and records.

Inputs that come from outside the code are parameters of the model:
- the clock (`Date.now()`, `timezone.now()`);
- the JWT decoder;
- the token endpoint's and refresh endpoint's answers;
- which request, if any, the server rejects (`SurveyBuilder.SaveSurvey`), and whether the assignment posts all succeed (`assignSurvey`);
- Python's `float()` of a string.

`localStorage` and the Authorization header are fields of the session class.

The model follows the code where it departs from what the system sets out to do:
- Login accepts a token without checking its expiry. Only `initAuth` compares `exp` with the clock, and it accepts `exp == now` (`src/contexts/AuthContext.tsx:55`).
- A choice question's option list may become empty. `removeOption` (`src/pages/hr/SurveyBuilder.tsx:183-191`) removes the last option without complaint, and `saveSurvey` only rejects blank options, not an empty list. The proved invariant is therefore "null exactly for types without choices", not "non-empty for choice types".
- The survey title is checked without trimming, and question texts are trimmed (`SurveyBuilder.TitleIsNotTrimmed`).
- A blank display name falls back to `emp.user.username`, which is None: the custom user model sets `username = None` (`backend/users/models.py:50`). `Analytics.DisplayName` returns None in exactly that case.
- A login whose token cannot be decoded leaves the previous default Authorization header in place (`Session.FailedDecodeLeavesStaleHeader`). The request interceptor (`src/services/api.ts:15-24`) overwrites that header from the stored token on every request, so the stale value is only sent when no token is stored.
- An employee may call `score` on their own responses: `get_permissions` (`backend/surveys/views.py:291-294`) restricts only `create`, `update`, `partial_update` and `destroy`, so `score` needs only `IsAuthenticated`.

## Model

| member | source | states |
|---|---|---|
| Basics.JsTrim | src/pages/hr/SurveyBuilder.tsx:232 | JavaScript `trim()` is a slice of the string that removes only whitespace from its two ends; it is empty exactly for an all-whitespace string, and otherwise neither starts nor ends with whitespace (which, by `Basics.CutIsUnique`, fixes it) |
| Basics.PyStrip | backend/analytics/views.py:30 | Python `strip()` is a slice of the string that removes only whitespace from its two ends; it is empty exactly for an all-whitespace string, and otherwise neither starts nor ends with whitespace (which, by `Basics.CutIsUnique`, fixes it) |
| Basics.CutIsUnique | backend/analytics/views.py:30 | two slices of a string that remove only whitespace from its ends and neither start nor end with whitespace are equal, so the stripped text is the unique such slice |
| Basics.KeepSplit | src/pages/hr/SurveyList.tsx:159-162 | `Array.prototype.filter` on a concatenation is the concatenation of the filtered parts: what is kept stays in its original order |
| Basics.ParseIntOfDecimal | src/pages/employee/SurveyResponse.tsx:113 | `parseInt` reads back the decimal text of every integer key |
| Basics.Ascending | src/pages/employee/SurveyResponse.tsx:112 | a set of integer keys listed in strictly ascending order, each exactly once |
| Basics.Without | src/pages/employee/SurveyResponse.tsx:162 | `filter(v => v !== x)` removes every occurrence of `x` and keeps the other elements with their multiplicities |
| Basics.WithoutAbsent | src/pages/employee/SurveyResponse.tsx:162 | filtering out a value that is absent changes nothing |
| JsonValues.Lookup | backend/surveys/models.py:168-181 | reading a key finds the last member with that key, and fails exactly when there is none |
| JsonValues.Singleton | src/pages/employee/SurveyResponse.tsx:68-71 | `{key: v}` has `key` as an own property bound to `v` |
| JsonValues.PyStr | backend/surveys/models.py:169 | Python `str()` of a string is the string itself, of an integer its decimal text, of null `None`; the same conversion keys the guide at line 184 |
| Permissions.GrantsExactlyItsRole | backend/users/permissions.py:4-28 | `IsAdmin`, `IsHROfficer` and `IsEmployee` each grant exactly the authenticated users whose role is ADMIN, HR or EMPLOYEE respectively |
| Permissions.AnonymousDenied | backend/users/permissions.py:10 | no permission grants an unauthenticated request; the `and` never reads the anonymous user's role |
| Permissions.ExactlyOneGrants | backend/users/permissions.py:4-28 | a user with one of the three `ROLE_CHOICES` roles is granted by exactly one permission; any other role by none |
| RouteGuard.Decide | src/components/auth/RequireAuth.tsx:10-40 | the spinner shows exactly while loading; the login redirect (carrying the location) happens exactly when not loading and not authenticated; a dashboard redirect only happens for a user whose role is not allowed, and goes to that role's dashboard |
| RouteGuard.AllowedRendersOthersRedirect | src/components/auth/RequireAuth.tsx:27-39 | an authenticated user with an allowed role sees the children; one with a known but disallowed role is sent to `/admin`, `/hr` or `/employee` according to the role |
| RouteGuard.UnknownRoleRenders | src/components/auth/RequireAuth.tsx:27-39 | a role outside ADMIN, HR and EMPLOYEE matches no redirect branch, so the children are rendered even though the role is not allowed |
| RouteGuard.AllowedAt | src/App.tsx:40-162 | a route found by path is one of the protected routes, with that path and those allowed roles |
| RouteGuard.AdminDashboardRoute | src/App.tsx:40-46 | `/admin` is protected and allows ADMIN only |
| RouteGuard.HrDashboardRoute | src/App.tsx:66-72 | `/hr` is protected and allows HR only |
| RouteGuard.EmployeeDashboardRoute | src/App.tsx:132-138 | `/employee` is protected and allows EMPLOYEE only |
| RouteGuard.RedirectTargetRenders | src/components/auth/RequireAuth.tsx:30-36 | every dashboard redirect lands on a protected route that allows the role, so the guard renders there and the redirect cannot loop |
| Session.LoggedOut | src/contexts/AuthContext.tsx:131-136 | after logout nobody is signed in, both stored tokens are gone and the Authorization header is deleted; the loading flag is untouched |
| Session.LogoutIdempotent | src/contexts/AuthContext.tsx:131-136 | logging out twice leaves the same state as logging out once |
| Session.InitEndsLoading | src/contexts/AuthContext.tsx:48-71 | whatever the stored token, the decoder and the refresh endpoint do, `initAuth` ends with `isLoading` false |
| Session.InitWithoutToken | src/contexts/AuthContext.tsx:49-70 | without a truthy stored access token, init changes only the loading flag, so a signed-out session stays signed out |
| Session.InitWithLiveToken | src/contexts/AuthContext.tsx:52-64 | a token with `exp` not before now signs in the user named by its claims and touches neither storage nor header |
| Session.InitWithExpiredToken | src/contexts/AuthContext.tsx:55-68 | an expired token leads to a refresh, and init ends in the refresh's own state (the extra logout after a failed refresh changes nothing) |
| Session.InitWithUndecodableToken | src/contexts/AuthContext.tsx:51-68 | a stored token the decoder rejects logs the session out |
| Session.RefreshFailureLogsOut | src/contexts/AuthContext.tsx:102-129 | a refresh that fails at any step (no refresh token, endpoint failure, undecodable answer) ends in the logged-out state |
| Session.RefreshNeedsRefreshToken | src/contexts/AuthContext.tsx:104-107 | without a truthy refresh token the refresh fails |
| Session.RefreshSuccess | src/contexts/AuthContext.tsx:109-123 | a successful refresh stores the new access token, keeps the refresh token, sets the user from the new token's claims and the header to `Bearer <access>` |
| Session.LoginEffect | src/contexts/AuthContext.tsx:76-100 | a failed token request changes nothing; a successful one stores both tokens; login completes exactly when the request succeeds and the access token decodes, and then the user and header come from that token |
| Session.OperationsKeepConsistent | src/contexts/AuthContext.tsx:48-136 | logout, refresh, init and a completed login keep the session invariant: a signed-in user has a stored access token, and a set header carries the stored access token |
| Session.FailedDecodeLeavesStaleHeader | src/contexts/AuthContext.tsx:81-93 | a login whose new token cannot be decoded stores it but leaves the previous session's default header in place, which then names a token no longer stored (the request interceptor replaces it while a token is stored) |
| Session.AuthProvider.constructor | src/contexts/AuthContext.tsx:44-45 | the provider mounts with no user, loading set, no header, and whatever tokens storage holds |
| Session.AuthProvider.Authenticated | src/contexts/AuthContext.tsx:142 | `isAuthenticated` holds exactly when a user is set |
| Session.AuthProvider.Logout | src/contexts/AuthContext.tsx:131-136 | the new state is the logged-out state of the old one |
| Session.AuthProvider.RefreshToken | src/contexts/AuthContext.tsx:102-129 | the new state and the success flag are those of the refresh specification applied to the old state |
| Session.AuthProvider.Login | src/contexts/AuthContext.tsx:76-100 | the new state and the success flag are those of the login specification applied to the old state |
| Session.AuthProvider.InitAuth | src/contexts/AuthContext.tsx:47-74 | the new state is the init specification applied to the old state |
| Session.UserOf | src/contexts/AuthContext.tsx:58-63 | the signed-in user carries the token claims `user_id`, `email`, `name` and `role` unchanged |
| SurveyModels.NewFactor | backend/surveys/models.py:16-24 | a factor created with the defaults is NON_TURNOVER with weight 1.0, which lies within the validator bounds 0.1 and 10.0 |
| SurveyModels.GetOr | backend/surveys/models.py:168-181 | `answer.get(key, default)` is the bound value when the key is present and the default otherwise |
| SurveyModels.PyFloat | backend/surveys/models.py:175-177 | `float()` of an integer is its value; of null, a list or a dict it raises TypeError |
| SurveyModels.DictKeys | backend/surveys/models.py:183 | iterating a dict visits exactly its keys |
| SurveyModels.CalculateScore | backend/surveys/models.py:161-189 | the method, with its checkbox loop, returns the score of the scoring specification, including the raised cases |
| SurveyModels.NoGuideNoScore | backend/surveys/models.py:163-164 | without scoring, or with a null or empty guide, the score is None whatever the answer |
| SurveyModels.FreeTextNoScore | backend/surveys/models.py:189 | TEXT and TEXTAREA questions never get a score |
| SurveyModels.ChoiceScore | backend/surveys/models.py:166-169 | a single-choice answer `{value: s}` scores the guide entry for `s`, or None without one; an integer value is looked up by its decimal text |
| SurveyModels.RatingScore | backend/surveys/models.py:171-177 | a rating answer `{value: n}` scores n; an answer without a value scores None |
| SurveyModels.BareAnswerRaises | backend/surveys/models.py:168-181 | for a scored RADIO, DROPDOWN, RATING or CHECKBOX question, an answer that is not a JSON object makes `calculate_score` raise AttributeError |
| SurveyModels.SumScoresAppend | backend/surveys/models.py:182-187 | the checkbox total is additive over the selection |
| SurveyModels.SumScoresBounds | backend/surveys/models.py:182-187 | with guide points between 0 and m, the checkbox total lies between 0 and m times the number of selections |
| SurveyModels.StringList | backend/surveys/models.py:183-184 | iterating a JSON list of strings yields those strings |
| SurveyModels.CheckboxScore | backend/surveys/models.py:179-187 | a checkbox answer `{values: [...]}` of strings scores the sum of their guide points, texts without an entry adding nothing; an answer without `values` scores 0 |
| SurveyViews.CompletedAtMostAssigned | backend/surveys/views.py:87-94 | a survey never has more completed assignments than assignments |
| SurveyViews.CompletionRate | backend/surveys/views.py:93-95 | the completion rate lies between 0 and 100, is 0 for a survey without assignments, and is 100 exactly when the survey has assignments and all of them are completed |
| SurveyViews.PercentBounds | backend/surveys/views.py:95 | a share in percent lies between 0 and 100 and is 100 exactly for the whole |
| SurveyViews.ScopedAssignments | backend/surveys/views.py:223-237 | the assignment queryset holds exactly the visible assignments: all for ADMIN, those of the HR user's department, or the requester's own |
| SurveyViews.ScopedAssignmentsSplit | backend/surveys/views.py:223-237 | filtering a concatenation filters each part, so the visible assignments stay in their original order |
| SurveyViews.ScopedAssignmentsIsKeep | backend/surveys/views.py:223-237 | the scoped queryset is the order-keeping filter of all assignments by visibility |
| SurveyViews.AdminSeesAll | backend/surveys/views.py:226-232 | ADMIN sees every assignment |
| SurveyViews.ScopingByRole | backend/surveys/views.py:226-237 | HR sees an assignment exactly when its employee is in HR's department; any role other than ADMIN and HR sees exactly its own |
| SurveyViews.QuestionById | backend/surveys/views.py:162 | the question lookup finds the question with that primary key, or reports that none exists |
| SurveyViews.AssignmentById | backend/surveys/views.py:394 | the assignment lookup finds the assignment with that primary key, or reports that none exists |
| SurveyViews.OwnAssignment | backend/surveys/views.py:142-146 | the lookup finds an assignment with the given id, of this survey and of the requesting user, or reports that none exists |
| SurveyViews.ResponseIndex | backend/surveys/views.py:166-170 | the lookup finds the response of that assignment to that question, or reports that none exists |
| SurveyViews.UpsertEffect | backend/surveys/views.py:166-170 | `update_or_create` keeps one response per (assignment, question), adds at most one row, leaves a row holding the new answer and leaves every other row alone |
| SurveyViews.SetScoreKeepsUnique | backend/surveys/views.py:174-175 | saving a score keeps the table's rows and their uniqueness |
| SurveyViews.SubmitTotalIsSum | backend/surveys/views.py:155-183 | a submit loop that does not raise totals the sum of the entries' contributions |
| SurveyViews.ContributionRule | backend/surveys/views.py:173-181 | a scored answer adds its score times the factor's weight when the question has a factor, and nothing when it has none |
| SurveyViews.ForeignQuestionSkipped | backend/surveys/views.py:161-164 | an entry whose question is not in the survey changes nothing |
| SurveyViews.SubmitRunKeepsUnique | backend/surveys/views.py:157-183 | submit keeps at most one response per (assignment, question) |
| SurveyViews.SubmitOutcomes | backend/surveys/views.py:132-193 | submit answers 404 exactly for a survey outside the requester's queryset or an assignment that is not the requester's own for this survey, 400 exactly for an invalid body; neither writes anything; a 200 completes the requester's assignment at the given time with the returned total |
| SurveyViews.SubmittedTotal | backend/surveys/views.py:155-191 | the total a successful submit returns is the sum of the contributions of the submitted entries |
| SurveyViews.RepeatedQuestionOverwrites | backend/surveys/views.py:157-170 | the same unscored question answered twice in one submission leaves one response, holding the later answer, and the total stays 0 |
| SurveyViews.ScoreBounds | backend/surveys/views.py:378-391 | for a scoring question a score is accepted exactly when it lies between 0 and `scoring_points`; without scoring any number is accepted; an accepted score is stored on the response |
| SurveyViews.MissingScoreRejected | backend/surveys/views.py:370-376 | a missing or null score changes nothing and is rejected |
| SurveyViews.RescoreTotalAppend | backend/surveys/views.py:403-411 | the re-scored total is additive over the responses |
| SurveyViews.RescoreIgnoresOthers | backend/surveys/views.py:397-400 | responses of other assignments add nothing to the re-scored total |
| SurveyViews.SubmitAndRescoreDisagree | backend/surveys/views.py:178-181 | as written: submitting `{value: 3}` to a scored question without a factor stores the score 3 but totals 0, while re-scoring the same rows totals 3 |
| SurveyViews.AppendThenScore | backend/surveys/views.py:166-175 | for a question not yet answered, upsert appends one row and scoring sets that row's score |
| SurveyViews.CorrectedStep | backend/surveys/views.py:403-411 | with re-scoring's weighting, one new entry raises the re-scored total of the rows by exactly its contribution (the loop of submit, lines 157-183, with this weighting) |
| SurveyViews.CorrectedSubmitAgreesWithRescore | backend/surveys/views.py:157-183 | corrected: for an assignment without stored responses and a submission answering each question once, the total under re-scoring's weighting equals re-scoring the rows submit leaves (re-scoring at lines 403-411) |
| SurveyViews.RunEntries | backend/surveys/views.py:157-183 | the loop over the entries reaches the state of the submit specification, stopping at the first entry whose score raises |
| SurveyViews.RunEntry | backend/surveys/views.py:158-183 | one pass of the loop is one step of that specification |
| SurveyViews.WriteAndScore | backend/surveys/views.py:167-181 | writing the answer with `update_or_create`, then scoring it only when the question has scoring, is the specification's step for an entry of the survey |
| SurveyViews.ApplyScore | backend/surveys/views.py:172-179 | an exception from `calculate_score` stops the loop with the rows as written; a returned score is saved, and added times the factor weight only when it is not None and the question has a factor |
| SurveyViews.TotalScore | backend/surveys/views.py:397-411 | the re-scoring loop computes the re-scored total |
| SurveyViews.CrashIsFinal | backend/surveys/views.py:157-183 | once `calculate_score` has raised, the remaining entries are not processed |
| SurveyViews.Store.constructor | backend/surveys/models.py:38-156 | the store holds the given tables |
| SurveyViews.Store.Submit | backend/surveys/views.py:132-193 | the new tables and the status are those of the submit specification applied to the old tables |
| SurveyViews.Store.Score | backend/surveys/views.py:366-426 | the new tables and the status are those of the score specification applied to the old tables |
| SurveyBuilder.Contents | src/pages/hr/SurveyBuilder.tsx:196-198 | erasing the orders keeps one entry per question |
| SurveyBuilder.RemovedAt | src/pages/hr/SurveyBuilder.tsx:186-187 | `filter((_, i) => i !== k)` drops exactly element k, keeps the others in order, and leaves the list unchanged when k is out of range; the same filter drops the question in line 194 |
| SurveyBuilder.RenumberOrders | src/pages/hr/SurveyBuilder.tsx:196-198 | the renumbering loop sets every question's order to its position and changes nothing else; the same loop is at lines 212-214 |
| SurveyBuilder.BuilderPage.constructor | src/pages/hr/SurveyBuilder.tsx:67 | the page starts with no questions |
| SurveyBuilder.BuilderPage.AddQuestion | src/pages/hr/SurveyBuilder.tsx:135-146 | appends one question (text '', type TEXT, options null, required, no factor, order the old length, the clock as temporary id) after the unchanged list |
| SurveyBuilder.BuilderPage.UpdateQuestion | src/pages/hr/SurveyBuilder.tsx:148-166 | replaces only the question at `index`, by the field update with the type change's option fix-ups |
| SurveyBuilder.BuilderPage.AddOption | src/pages/hr/SurveyBuilder.tsx:168-173 | replaces only question `qi`, whose options gain one '' at the end, null counting as empty |
| SurveyBuilder.BuilderPage.UpdateOption | src/pages/hr/SurveyBuilder.tsx:175-181 | sets option k of question `qi`, and does nothing when its options are null |
| SurveyBuilder.BuilderPage.RemoveOption | src/pages/hr/SurveyBuilder.tsx:183-191 | deletes option k of question `qi`, and does nothing when its options are null |
| SurveyBuilder.BuilderPage.RemoveQuestion | src/pages/hr/SurveyBuilder.tsx:193-200 | installs the list without the question at `index`, renumbered |
| SurveyBuilder.BuilderPage.MoveQuestion | src/pages/hr/SurveyBuilder.tsx:202-217 | installs the list with the dragged question taken out and reinserted at `hover`, renumbered |
| SurveyBuilder.AddQuestionKeepsWellFormed | src/pages/hr/SurveyBuilder.tsx:135-146 | adding a question keeps orders equal to positions and options null exactly for types without choices, and leaves the earlier questions unchanged |
| SurveyBuilder.UpdateKeepsWellFormed | src/pages/hr/SurveyBuilder.tsx:148-166 | every field update keeps both invariants and keeps the question's order |
| SurveyBuilder.TypeChangeOptions | src/pages/hr/SurveyBuilder.tsx:155-163 | a type without choices nulls the options; a choice type turns null options into [''] and keeps existing ones; the type is set |
| SurveyBuilder.RadioTextRadioResetsOptions | src/pages/hr/SurveyBuilder.tsx:155-163 | RADIO with ["A", "B"] changed to TEXT and back ends with [''], while RADIO to CHECKBOX keeps ["A", "B"] |
| SurveyBuilder.OptionEditsKeepWellFormed | src/pages/hr/SurveyBuilder.tsx:168-191 | the option handlers keep both invariants (adding only on a choice type, where the page offers it), are no-ops on null options, and adding appends exactly one '' |
| SurveyBuilder.RenumberedFacts | src/pages/hr/SurveyBuilder.tsx:196-198 | renumbering keeps the length, makes every order its position, and changes nothing but orders; the same for lines 212-214 |
| SurveyBuilder.RemoveQuestionFacts | src/pages/hr/SurveyBuilder.tsx:193-200 | removing shrinks the list by one, keeps the survivors in their relative order, renumbers them 0..n-2, and keeps both invariants |
| SurveyBuilder.SplicedAt | src/pages/hr/SurveyBuilder.tsx:207-209 | the two splices keep the length and put the dragged element at `hover`, every other element shifted past the gap |
| SurveyBuilder.SplicePermutes | src/pages/hr/SurveyBuilder.tsx:207-209 | the two splices permute the list |
| SurveyBuilder.ContentsConcat | src/pages/hr/SurveyBuilder.tsx:203 | erasing orders distributes over concatenation |
| SurveyBuilder.ContentsSlice | src/pages/hr/SurveyBuilder.tsx:203 | erasing orders commutes with slicing |
| SurveyBuilder.ContentsSpliced | src/pages/hr/SurveyBuilder.tsx:207-209 | erasing orders commutes with the splices |
| SurveyBuilder.MoveQuestionFacts | src/pages/hr/SurveyBuilder.tsx:202-217 | moving keeps the length, places the dragged question at `hover` with that order, is a permutation up to orders, numbers the orders 0..n-1, and keeps both invariants |
| SurveyBuilder.SaveSurvey | src/pages/hr/SurveyBuilder.tsx:220-317 | no request exactly when a check fails, reporting the first failing check; otherwise the survey PUT (edit mode with an id) or POST, then in edit mode the question listing and one DELETE per stale id, then one PUT (question with an id) or POST per question in page order; the requests stop at the first one the server rejects, which is the last one made, and the save completes exactly when none is rejected |
| SurveyBuilder.PlanRequests | src/pages/hr/SurveyBuilder.tsx:252-309 | the full request order of a save the server accepts throughout: survey PUT or POST, then in edit mode the listing and the DELETEs, then one PUT or POST per question |
| SurveyBuilder.StopAtRejection | src/pages/hr/SurveyBuilder.tsx:250-317 | awaiting requests one by one: a rejection at position k leaves exactly the first k+1 requests made and the save incomplete; otherwise all are made and it completes |
| SurveyBuilder.AppendDeletes | src/pages/hr/SurveyBuilder.tsx:285-287 | the loop adds one DELETE per stale id, in order, after the earlier requests |
| SurveyBuilder.AppendQuestionRequests | src/pages/hr/SurveyBuilder.tsx:291-309 | the loop adds, in order, a PUT for each question with an id and a POST for each new one, after the earlier requests |
| SurveyBuilder.StaleIdsIsDifference | src/pages/hr/SurveyBuilder.tsx:282 | the ids deleted are exactly the server's ids absent from the page's ids |
| SurveyBuilder.CurrentIdsAreIds | src/pages/hr/SurveyBuilder.tsx:279 | the page's ids are exactly the ids of its questions that have a truthy id |
| SurveyBuilder.TitleIsNotTrimmed | src/pages/hr/SurveyBuilder.tsx:221-232 | the title " " passes its check, while a question text " " is refused |
| SurveyListPage.ToggledSelection | src/pages/hr/SurveyList.tsx:106-112 | after the toggle the id is selected exactly when it was not before |
| SurveyListPage.WithoutKeepsNoDuplicates | src/pages/hr/SurveyList.tsx:108 | filtering an id out of a duplicate-free list leaves it duplicate-free |
| SurveyListPage.ToggleKeepsNoDuplicates | src/pages/hr/SurveyList.tsx:106-112 | toggling never introduces a duplicate id into the selection |
| SurveyListPage.ToggleTwiceRestores | src/pages/hr/SurveyList.tsx:106-112 | toggling an unselected id twice restores the selection exactly |
| SurveyListPage.OccursOnce | src/pages/hr/SurveyList.tsx:107 | a selected id occurs once in a duplicate-free selection |
| SurveyListPage.ToggleTwiceSelected | src/pages/hr/SurveyList.tsx:106-112 | toggling a selected id twice gives the same selection as a multiset, with that id moved to the end |
| SurveyListPage.ToggleTwiceReorders | src/pages/hr/SurveyList.tsx:108-110 | the order is not restored: toggling 1 twice in [1, 2] gives [2, 1] |
| SurveyListPage.AssignmentPayloads | src/pages/hr/SurveyList.tsx:128-132 | one payload per selected employee, in selection order, each with the selected survey and the due date |
| SurveyListPage.PayloadsCoverSelection | src/pages/hr/SurveyList.tsx:128-132 | every payload names the selected survey and the due date, and the payloads' employees are exactly the selected ids |
| SurveyListPage.FilteredSurveys | src/pages/hr/SurveyList.tsx:159-162 | a survey is kept exactly when the query is a case-sensitive substring of its title or its description |
| SurveyListPage.FilteredSurveysSplit | src/pages/hr/SurveyList.tsx:159-162 | filtering a concatenation filters each part, so the kept surveys stay in their original order |
| SurveyListPage.FilteredSurveysIsKeep | src/pages/hr/SurveyList.tsx:159-162 | `filteredSurveys` is the order-keeping filter of the surveys by the match |
| SurveyListPage.EmptySurveyQueryKeepsAll | src/pages/hr/SurveyList.tsx:159-162 | the empty query keeps every survey, in order |
| SurveyListPage.FilteredEmployees | src/pages/hr/SurveyList.tsx:165-170 | an employee is kept exactly when the query is a substring of the name, email, department or position |
| SurveyListPage.EmptyEmployeeQueryKeepsAll | src/pages/hr/SurveyList.tsx:165-170 | the empty query keeps every employee, in order |
| SurveyListPage.FilteredEmployeesSplit | src/pages/hr/SurveyList.tsx:165-170 | filtering a concatenation filters each part, so the kept employees stay in their original order |
| SurveyListPage.FilteredEmployeesIsKeep | src/pages/hr/SurveyList.tsx:165-170 | `filteredEmployees` is the order-keeping filter of the employees by the match |
| SurveyListPage.FromServer | backend/users/serializers.py:77-86 | a row of `/users/employees/` read by the page has its id and position, and no top-level name, email or department (those sit inside `user_details`) |
| SurveyListPage.Complete | src/pages/hr/SurveyList.tsx:23-29 | a complete employee row has all four searched fields present |
| SurveyListPage.FieldIncludes | src/pages/hr/SurveyList.tsx:166 | `field.includes(query)` throws exactly on a missing field, and otherwise is substring containment |
| SurveyListPage.JsEmployeeMatches | src/pages/hr/SurveyList.tsx:165-170 | the search callback throws when the name is missing, and on a row with all four fields is `SurveyListPage.EmployeeMatches` |
| SurveyListPage.JsFilteredEmployees | src/pages/hr/SurveyList.tsx:165-170 | when the filter does not throw, it keeps at most every row, and only rows whose callback is true |
| SurveyListPage.ServedEmployeesBreakSearch | src/pages/hr/SurveyList.tsx:165-170 | on a non-empty list as `/users/employees/` serves it the filter throws, whatever the query |
| SurveyListPage.CompleteRowsFilter | src/pages/hr/SurveyList.tsx:165-170 | on rows carrying all four fields the filter does not throw and keeps exactly what `FilteredEmployees` keeps, in order |
| SurveyListPage.CategoryLabel | src/pages/hr/SurveyList.tsx:173-181 | the four category codes map to their fixed labels, and any other code is shown unchanged |
| SurveyListPage.CategoryLabelsDistinct | src/pages/hr/SurveyList.tsx:174-179 | no two known codes share a label |
| SurveyListPage.WithoutSurvey | src/pages/hr/SurveyList.tsx:80 | the filtered list is no longer than the original |
| SurveyListPage.WithoutSurveyMembers | src/pages/hr/SurveyList.tsx:80 | the surveys kept are exactly those whose id differs from the deleted id |
| SurveyListPage.WithoutAbsentSurvey | src/pages/hr/SurveyList.tsx:80 | a list without the deleted id is unchanged |
| SurveyListPage.ListPage.constructor | src/pages/hr/SurveyList.tsx:33-45 | the page starts with the loaded surveys, no survey selected, no employee selected and no due date |
| SurveyListPage.ListPage.SelectSurvey | src/pages/hr/SurveyList.tsx:69-72 | selects the survey the modal acts on and changes nothing else |
| SurveyListPage.ListPage.SetDueDate | src/pages/hr/SurveyList.tsx:43 | sets the due date and changes nothing else |
| SurveyListPage.ListPage.ToggleEmployeeSelection | src/pages/hr/SurveyList.tsx:106-112 | the selection becomes the toggled selection; nothing else changes |
| SurveyListPage.ListPage.ConfirmDelete | src/pages/hr/SurveyList.tsx:74-89 | no request and no change without a selected survey; otherwise a delete of the selected survey, and when it succeeds every survey with that id leaves the list |
| SurveyListPage.ListPage.AssignSurvey | src/pages/hr/SurveyList.tsx:114-156 | no request without a selected survey, with no employee selected or with an empty due date; otherwise one payload per selected employee, and the selection and due date are cleared when all requests succeed |
| SurveyResponseForm.Unanswered | src/pages/employee/SurveyResponse.tsx:96-103 | `unansweredRequired` holds exactly the questions that are required and lack an answer: a required checkbox question without a non-empty array, or another required question whose answer is absent, null or `''` |
| SurveyResponseForm.UnansweredSplit | src/pages/employee/SurveyResponse.tsx:96-103 | flagging a concatenation flags each part, so the flagged questions are listed in the form's order |
| SurveyResponseForm.UnansweredIsKeep | src/pages/employee/SurveyResponse.tsx:96-103 | `unansweredRequired` is the order-keeping filter of the questions by the flag |
| SurveyResponseForm.FlagIsLocal | src/pages/employee/SurveyResponse.tsx:96-103 | recording an answer for one question never changes whether another question is flagged |
| SurveyResponseForm.AnswerClearsFlag | src/pages/employee/SurveyResponse.tsx:98-100 | a non-empty array answers a required checkbox question, and any value other than null and `''` answers a required question of another type |
| SurveyResponseForm.EmptyAnswerKeepsFlag | src/pages/employee/SurveyResponse.tsx:98-100 | an empty array leaves a required checkbox question unanswered, and `''` any other required question |
| SurveyResponseForm.AscendingIdKeys | src/pages/employee/SurveyResponse.tsx:112 | `Object.entries` lists the integer-like keys in strictly ascending order |
| SurveyResponseForm.AscendingIdKeysCover | src/pages/employee/SurveyResponse.tsx:112 | those keys are exactly the record's integer-like keys |
| SurveyResponseForm.KeysInOrder | src/pages/employee/SurveyResponse.tsx:112 | `Object.entries` visits every key of the record exactly once: integer-like keys ascending, then the string key `undefined` |
| SurveyResponseForm.IdsThenUndefined | src/pages/employee/SurveyResponse.tsx:112 | integer-like keys followed by `undefined` cover the record once each |
| SurveyResponseForm.UndefinedIsNaN | src/pages/employee/SurveyResponse.tsx:113 | `parseInt("undefined")` is NaN, which the payload sends as null |
| SurveyResponseForm.PayloadFaithful | src/pages/employee/SurveyResponse.tsx:112-115 | the payload has one entry per recorded key, in `Object.entries` order, each carrying the key's question id (null for `undefined`) and the recorded answer unchanged, not wrapped |
| SurveyResponseForm.PayloadLength | src/pages/employee/SurveyResponse.tsx:112-115 | there are as many payload entries as recorded answers |
| SurveyResponseForm.RebuildValue | src/pages/employee/SurveyResponse.tsx:67-74 | an answer that is not an object has neither own property, so it is rebuilt as `''` |
| SurveyResponseForm.RebuiltKeys | src/pages/employee/SurveyResponse.tsx:66-75 | the rebuilt record has exactly the keys of the stored items, with `undefined` for an item without `question_id` |
| SurveyResponseForm.RebuiltLastWins | src/pages/employee/SurveyResponse.tsx:66-75 | each rebuilt key holds the value rebuilt from the last item with that key |
| SurveyResponseForm.WrappedAnswerRebuilt | src/pages/employee/SurveyResponse.tsx:68-71 | a stored `{value: v}` or `{values: v}` is rebuilt as `v` |
| SurveyResponseForm.CurrentValues | src/pages/employee/SurveyResponse.tsx:156 | `currentValues` is the recorded answer when it is an array (and `[]` otherwise) |
| SurveyResponseForm.ToggleEffect | src/pages/employee/SurveyResponse.tsx:162 | unchecking removes every occurrence of the option and keeps every other element with its multiplicity; checking appends the option once |
| SurveyResponseForm.CheckThenUncheck | src/pages/employee/SurveyResponse.tsx:162 | checking an unselected option and then unchecking it restores the list |
| SurveyResponseForm.CheckingAnswers | src/pages/employee/SurveyResponse.tsx:161-163 | after any option is checked, a required checkbox question is answered (the check at line 99 reads such lists) |
| SurveyResponseForm.ResponsePage.constructor | src/pages/employee/SurveyResponse.tsx:35-42 | the page is read-only exactly when the `readonly` query parameter is `'true'`, and starts without assignment, questions or answers |
| SurveyResponseForm.ResponsePage.Load | src/pages/employee/SurveyResponse.tsx:54-85 | loading records the assignment and questions; for a completed assignment the answers become the record rebuilt from the stored items, otherwise they are kept |
| SurveyResponseForm.ResponsePage.HandleResponseChange | src/pages/employee/SurveyResponse.tsx:87-90 | a read-only page ignores the change; otherwise only the answer of that question is replaced |
| SurveyResponseForm.ResponsePage.ToggleOption | src/pages/employee/SurveyResponse.tsx:155-169 | a checkbox change records the toggled list for that question, unless the page is read-only |
| SurveyResponseForm.ResponsePage.HandleSubmit | src/pages/employee/SurveyResponse.tsx:92-120 | no request is sent exactly when the page is read-only, has no assignment, or some required question is unanswered; otherwise the request carries the assignment's survey id, its id and the payload |
| SurveyResponseForm.SubmittedMeansAnswered | src/pages/employee/SurveyResponse.tsx:96-108 | once nothing is flagged, every required question has an answer of the right shape |
| AnswerRoundTrip.ServedAnswersLoseTheirQuestions | backend/surveys/serializers.py:91 | as written: the stored answers of a completed assignment rebuild into a record whose only key is "undefined", holding the last row's answer, because the served items carry `question` and the form reads `question_id` (src/pages/employee/SurveyResponse.tsx:66-74) |
| AnswerRoundTrip.PayloadOfOne | src/pages/employee/SurveyResponse.tsx:112-115 | the payload of a record holding one answer is that answer, unchanged, under its question id |
| AnswerRoundTrip.RawRatingCrashesSubmit | src/pages/employee/SurveyResponse.tsx:112-115 | as written: a rating of 3 is posted as the bare number 3; `calculate_score` calls `.get` on it (backend/surveys/models.py:173) and submit answers 500 with the answer row written, unscored, and the assignment still open; served back under its id, that row rebuilds to '' |
| AnswerRoundTrip.RawRatingSubmitFails | backend/surveys/views.py:172-174 | as written: the bare rating 3 makes submit answer 500 with the unscored row kept and the assignment left open |
| AnswerRoundTrip.RawRatingRebuildsBlank | src/pages/employee/SurveyResponse.tsx:66-75 | as written: the unscored bare rating, served back under its id, rebuilds to '' |
| AnswerRoundTrip.WrapAnswer | backend/surveys/models.py:168-181 | the wrapped answer is an object, and the form's rebuild (src/pages/employee/SurveyResponse.tsx:68-71) recovers the original answer from it |
| AnswerRoundTrip.QuestionKind | src/pages/employee/SurveyResponse.tsx:136 | the kind is the type of a form question with that id, or free text when there is none |
| AnswerRoundTrip.ReadableNeverRaises | backend/surveys/models.py:161-189 | `calculate_score` returns, and does not raise, on an object whose `values`, if present, is iterable |
| AnswerRoundTrip.ReadableRunCompletes | backend/surveys/views.py:157-183 | the submit loop over readable answers runs to the end |
| AnswerRoundTrip.WrappedLength | src/pages/employee/SurveyResponse.tsx:112-115 | the wrapped payload has one entry per key of the record |
| AnswerRoundTrip.WrappedEntry | src/pages/employee/SurveyResponse.tsx:112-115 | entry i of the wrapped payload is the i-th key's id and its answer, wrapped by the question's type |
| AnswerRoundTrip.WrapReadable | backend/surveys/models.py:179-187 | a wrapped answer is readable unless it is a checkbox answer that is not a list |
| AnswerRoundTrip.WrappedIsReadable | src/pages/employee/SurveyResponse.tsx:155-169 | every wrapped answer is readable when each checkbox answer is a list, as the checkbox handler records it |
| AnswerRoundTrip.CorrectedFormSubmits | backend/surveys/views.py:132-193 | corrected: a wrapped payload of question-id keys submits with 200 to the requester's own assignment in a visible survey |
| AnswerRoundTrip.WrappedPayloadRoundTrip | src/pages/employee/SurveyResponse.tsx:61-77 | corrected: the wrapped answers, served back under their question ids, rebuild to exactly the record that was posted (posted by lines 112-115) |
| AnswerRoundTrip.RebuiltFromKeys | src/pages/employee/SurveyResponse.tsx:64-75 | items that carry every key of a record, each rebuilding to that key's value, rebuild to the record |
| AnswerRoundTrip.RebuiltValue | src/pages/employee/SurveyResponse.tsx:66-75 | every key of the rebuilt record is a key of the record, with the record's value |
| Grouping.GroupIndex | backend/analytics/views.py:35 | the group lookup finds a group with the key, or reports that none exists |
| Grouping.GroupByShape | backend/analytics/views.py:35-39 | `.values(key).annotate(...)` yields groups with distinct keys, each non-empty, no more groups than rows, and a group for a key exactly when some row carries it |
| Grouping.AddToShape | backend/analytics/views.py:35-39 | adding one row keeps the keys distinct and the groups non-empty, and adds exactly that row's key |
| Grouping.GroupByKeepsTotals | backend/analytics/views.py:35-39 | grouping keeps every count and every sum taken over a set of keys |
| Grouping.OneGroupPerKey | backend/analytics/views.py:35-39 | with distinct keys, the count and sum over one key are those of its one group |
| Grouping.GroupOfKey | backend/analytics/views.py:35-39 | `Count` of each group is the number of rows with its key, and the sum behind `Avg` is the sum of their values |
| Grouping.GroupCountsTotal | backend/analytics/views.py:35-36 | the counts of all groups add up to the number of rows |
| Analytics.ScopedEmployees | backend/analytics/views.py:14-19 | an HR requester sees exactly the employees of its own department, every other requester all of them (the order is `Analytics.ScopedEmployeesSplit`) |
| Analytics.ScopedEmployeesSplit | backend/analytics/views.py:14-19 | scoping a concatenation scopes each part, so the kept employees stay in their original order |
| Analytics.ScopedEmployeesIsKeep | backend/analytics/views.py:14-19 | the scoped employees are the order-keeping filter of all employees by scope |
| Analytics.ScopedAssignmentRows | backend/analytics/views.py:54-56 | the assignments counted are exactly those in the requester's scope |
| Analytics.ScopedAssignmentRowsSplit | backend/analytics/views.py:54-56 | scoping a concatenation scopes each part, so the counted assignments stay in their original order |
| Analytics.ScopedAssignmentRowsIsKeep | backend/analytics/views.py:54-56 | the counted assignments are the order-keeping filter of all assignments by scope |
| Analytics.OthersSeeAllEmployees | backend/analytics/views.py:17-19 | a requester who is not HR sees every employee |
| Analytics.DisplayName | backend/analytics/views.py:30 | the shown name is the slice of `"first last"` without its outer whitespace, with non-space ends; the fallback (None, the user model's `username`) happens exactly when that text is all whitespace |
| Analytics.DisplayNameIsTheCut | backend/analytics/views.py:30 | any slice of `"first last"` that drops only outer whitespace and has non-space ends is the shown name |
| Analytics.DisplayNameOfOneName | backend/analytics/views.py:30 | with one name blank, the other (without surrounding whitespace) is shown alone: `("", "Smith")` gives `Smith`, `("Ann", "")` gives `Ann` |
| Analytics.DisplayNameIgnoresPadding | backend/analytics/views.py:30 | whitespace before the first name or after the last name does not change the shown name |
| Analytics.DisplayNameOfTrimmedNames | backend/analytics/views.py:30 | names without surrounding whitespace are shown joined by one space |
| Analytics.DisplayNameOfBlankNames | backend/analytics/views.py:30 | blank names fall back |
| Analytics.DepartmentLabel | backend/analytics/views.py:36-42 | a missing or empty department name is shown as `N/A`, any other name as itself |
| Analytics.HighRiskDepartment | backend/analytics/views.py:31 | the high-risk list shows `N/A` only for an employee without a department |
| Analytics.SummaryCounts | backend/analytics/views.py:22-32 | the risk loop raises KeyError exactly when an employee has a non-empty risk other than LOW, MEDIUM and HIGH; otherwise each counter counts the employees with its risk and the high-risk list holds exactly the HIGH employees in order |
| Analytics.CountersAddUp | backend/analytics/views.py:22-32 | the three counters add up to the number of employees with a risk, and the high-risk list is as long as the HIGH counter |
| Analytics.SummariseRisks | backend/analytics/views.py:22-32 | the loop computes the counters and the list of the risk specification, or the KeyError |
| Analytics.CrashedStaysCrashed | backend/analytics/views.py:24-27 | once the loop has raised, later employees do not matter |
| Analytics.DeptPairs | backend/analytics/views.py:35 | the department grouping receives, for each scoped employee in order, the pair of its department name and 0 |
| Analytics.Labelled | backend/analytics/views.py:36 | `by_department` has, for each group in order, the group's department label and its count |
| Analytics.ByDepartmentTotal | backend/analytics/views.py:35-36 | the department counts add up to the number of scoped employees |
| Analytics.RiskPairs | backend/analytics/views.py:39 | the (department, risk) grouping receives each scoped employee's department name and risk, in order |
| Analytics.CellIndex | backend/analytics/views.py:44 | the lookup of a department in the table finds an entry of that department, or reports that none exists |
| Analytics.TableStepOther | backend/analytics/views.py:41-51 | a grouped row of another department leaves the entry of a department as it was |
| Analytics.TableStepSame | backend/analytics/views.py:44-51 | a grouped row of a department creates its entry if needed and adds the row's count to the counter named by its risk |
| Analytics.RiskTableHasCell | backend/analytics/views.py:41-45 | a department has an entry exactly when some grouped row is of that department |
| Analytics.RiskTableCells | backend/analytics/views.py:41-51 | each counter of a department is the sum of the counts of that department's rows with that risk; other risks are ignored |
| Analytics.RiskTableDistinct | backend/analytics/views.py:40-45 | each department appears once in `riskByDepartment` |
| Analytics.RiskByDepartment | backend/analytics/views.py:40-51 | the loop over the grouped rows builds the table of the risk-table specification |
| Analytics.RiskStep | backend/analytics/views.py:42-51 | one pass of the loop is one step of that specification |
| Analytics.CellCountsEmployees | backend/analytics/views.py:39 | counting the grouping's input through a cell's keys counts the employees shown under that department with that risk |
| Analytics.RiskByDepartmentCounts | backend/analytics/views.py:39-51 | a department has an entry exactly when some scoped employee is shown under it, and its three counters are the numbers of such employees with LOW, MEDIUM and HIGH risk |
| Analytics.PendingPlusDone | backend/analytics/views.py:57-58 | pending and completed surveys add up to the scoped assignments |
| Analytics.FactorPairs | backend/analytics/views.py:61-64 | every (factor, score) pair averaged comes from a scored response to a question of a TURNOVER factor |
| Analytics.Averages | backend/analytics/views.py:64 | one average per factor group, under the group's factor name |
| Analytics.InsertDesc | backend/analytics/views.py:64 | inserting into a list ordered by descending average keeps it ordered and adds exactly the one element |
| Analytics.SortDesc | backend/analytics/views.py:64 | `order_by('-avg')` orders by non-increasing average and is a permutation |
| Analytics.PrefixIsLargest | backend/analytics/views.py:64 | cutting a non-increasing list splits it into a head and a rest whose averages are no larger than the head's |
| Analytics.SortedPrefix | backend/analytics/views.py:64 | a prefix of the sorted averages is ordered, holds given averages only, and the rest completes it without exceeding it |
| Analytics.TopFive | backend/analytics/views.py:64-65 | `[:5]` keeps five averages, or all of them when fewer, in non-increasing order; each is one of the averages, and none left out is larger than one kept |
| Analytics.AverageAt | backend/analytics/views.py:64 | each factor's average is its score sum divided by its count |
| Analytics.TopFactorsAreTurnover | backend/analytics/views.py:61-65 | every listed factor has a scored response to a question of a TURNOVER factor, and its average is the mean of the scores recorded under its name |
| Analytics.TurnoverAnalytics | backend/analytics/views.py:12-80 | the view fails exactly when a scoped employee has an unknown risk; otherwise the total is the scoped head count, the risk counters do not exceed it, the high-risk list matches the HIGH counter, the department counts add up to the total, pending plus completed is the number of scoped assignments, at most five factors are listed and each department has one risk entry |
| Turnover.RatingText | backend/analytics/models.py:59-68 | the stored text of a performance rating is blank exactly for the unrated record |
| Turnover.ParseRating | backend/analytics/models.py:59-68 | a stored text accepted as a rating is the text of that rating |
| Turnover.RatingRoundTrip | backend/analytics/models.py:59-68 | every rating, blank included, reads back as itself from its stored text |
| Turnover.TenureMonths | backend/analytics/models.py:94-95 | the tenure is the month difference `(exit.year - hire.year) * 12 + (exit.month - hire.month)` clamped at 0: at least that difference, and equal to it or 0 |
| Turnover.SameMonthIsZero | backend/analytics/models.py:94-95 | an exit in the month of hire gives a tenure of 0, whatever the day |
| Turnover.ExitBeforeHireIsZero | backend/analytics/models.py:94-95 | an exit in a month before the hire month gives 0, never a negative tenure |
| Turnover.DayIgnored | backend/analytics/models.py:94 | the days of the two dates do not affect the tenure |
| Turnover.OneYear | backend/analytics/models.py:94 | an exit in the same month one year after hire is twelve months |
| Turnover.TenureAdds | backend/analytics/models.py:94-95 | tenures add up across an intermediate date when both parts are positive |
| Turnover.TurnoverRecord.constructor | backend/analytics/models.py:35-87 | a new record holds the given employee, dates and rating and no tenure |
| Turnover.TurnoverRecord.Save | backend/analytics/models.py:89-96 | saving without an employee raises and changes nothing; with an employee but no exit date the write raises on the NOT NULL column (line 44) and the tenure is kept; with an employee, an exit date and a hire date the tenure becomes the clamped month difference and the save succeeds; with no hire date the stored tenure is kept; no other field changes |

## Left out

- HTTP transport (`src/services/api.ts`): the axios interceptors, the retry-once `_retry` flag and the `window.location` redirect. The HTTP outcomes the modelled operations depend on are inputs: the position of the first rejected request in `saveSurvey`, the token and refresh endpoints' answers, and whether the assignment posts succeed.
- `jwtDecode`, `localStorage` and the clock are not modelled as code. The decoder is a function parameter, the clock a number parameter, and the stored tokens and the default Authorization header are fields of `Session.AuthProvider`.
- Concurrency: `Promise.all` in `assignSurvey` (`src/pages/hr/SurveyList.tsx:135-139`) is modelled as the list of payloads it posts plus one flag saying whether all requests succeeded. Partial success and the order of completion are not modelled.
- React state aliasing: `[...questions]` copies only the array, so `addOption`, `updateOption`, `removeOption`, `removeQuestion` and `moveQuestion` also mutate question objects that the previous state shares. The builder class replaces its `questions` sequence by a new value, and the model does not capture that sharing.
- Page plumbing is not modelled:
  - loading and saving flags (other than the session's loading flag);
  - toasts and navigation;
  - the survey form's field handlers (`handleSurveyChange`, `handleSurveyCheckboxChange`);
  - the initial fetches (`fetchSurvey` with its sort by `order`, `fetchFactors`, `fetchSurveys`, the employee fetch).
  The rejection kinds of `saveSurvey` stand for its toasts.
- Floating point: `round(avg, 2)` in the top factors (`backend/analytics/views.py:65`) is left out, and averages are exact reals. Python's `float()` of a string is a parameter (`parseFloat`). JSON numbers are integers, because the client posts `parseInt` ratings; fractional JSON numbers are not modelled.
- Guide and score shapes: a scoring guide is a map from answer text to a number. A guide stored as a JSON list makes `.get` raise AttributeError (`backend/surveys/models.py:169`, `:184`), and a non-numeric point makes `total += score` raise TypeError (`:186`). The model has neither, because such guides can only be stored through the admin site or the ORM. The `parseFloat` parameter yields only finite reals: `float('nan')` would pass the range check of `score` (`backend/surveys/views.py:383`) and be stored, and the model does not capture that.
- JsonValues.PyStr: approximates Python's `str()` of lists and dicts without quoting or escaping their elements. It only affects guide lookups for composite answers, which no guide key can match.
- `statistics` (`backend/surveys/views.py:81-130`): only `completion_rate` is modelled. `avg_score` and `factor_analysis` are ORM averages whose only rule is the average itself.
- The duplicated `turnover_analytics` in `backend/surveys/views.py:427-575` repeats `backend/analytics/views.py` and is modelled once, from the latter.
- The other survey endpoints (`by_survey`, `my_assignments`, the CRUD viewsets, serializer validation beyond the submission's field types) are not modelled. `responses/` is modelled only as the list of stored answers it serves.
- The unique-together constraint on assignments is stated as a predicate (`SurveyModels.UniqueAssignments`). No modelled operation creates assignments, so nothing is proved about keeping it.
- Factor weight validators (`backend/surveys/models.py:24`) run only in `full_clean`. The model proves that the default weight lies within them, but assumes nothing about stored weights.
- `EmployeeTurnover.save`: the database write is reduced to its one failure that depends on the fields read here, the NOT NULL `exit_date` (`backend/analytics/models.py:44`), modelled as `NullExitDate`. The employee's hire date is joined in as an optional value; the other columns and their constraints are not modelled.
- Transactions: `submit` is not atomic in the source, and the model keeps its partial writes. Database locking and concurrent requests are not modelled.

## Findings

| source | as written | input that shows it | evidently intended | confidence | as-written member | corrected member |
|---|---|---|---|---|---|---|
| backend/surveys/views.py:177-181 | `submit` adds `score * factor.weight` to the total only when the question has a factor, so a scored question without a factor adds nothing; `score` re-totals the same rows adding the raw score for such a question (lines 404-411) | a survey with one scored RATING question without a factor, answered `{value: 3}`: submit stores score 3 and total 0, re-scoring gives 3. A scored question needs `has_scoring` and a non-empty `scoring_guide`, which the question serializer does not expose (backend/surveys/serializers.py:22-23), so it is set up through the admin site or the ORM | one weighting rule: submit totals what re-scoring the stored rows gives | not executed | SurveyViews.SubmitAndRescoreDisagree | SurveyViews.CorrectedSubmitAgreesWithRescore |
| src/pages/employee/SurveyResponse.tsx:112-115 | the form posts each answer as recorded (a bare string, number or list), while `calculate_score` reads `answer.get('value')` or `answer.get('values')` (backend/surveys/models.py:168-181), which raises on a non-object | a scored RATING question (set up through the admin site or the ORM, since the question serializer exposes neither `has_scoring` nor `scoring_guide`) answered 3: the posted answer is `3`, `calculate_score` raises AttributeError, submit fails with 500 after writing the unscored row, and the assignment stays open | answers posted as `{value: v}`, or `{values: [...]}` for checkboxes, as the backend and the rebuild read them | not executed | AnswerRoundTrip.RawRatingCrashesSubmit | AnswerRoundTrip.CorrectedFormSubmits |
| backend/surveys/serializers.py:91 | the stored-response serializer names the question field `question`, while the form rebuilds its record from `item.question_id` (src/pages/employee/SurveyResponse.tsx:66-74) | any completed assignment with stored answers: every answer is written under the key "undefined", and no question shows its answer | the rebuilt record is the record that was posted | not executed | AnswerRoundTrip.ServedAnswersLoseTheirQuestions | AnswerRoundTrip.WrappedPayloadRoundTrip |
| src/pages/hr/SurveyList.tsx:165-170 | the employee search reads `name`, `email` and `department`, which the rows of `GET /users/employees/` do not have: its serializer sends `id, user_details, position, hire_date, is_active, turnover_risk`, with the email and names only inside `user_details` and `user` write-only (backend/users/serializers.py:77-86) | an HR user clicking Assign on any survey while the department has at least one employee: `handleAssignClick` stores the served rows, and on the next render `undefined.includes('')` throws a TypeError, whatever the search text | the search runs on rows carrying the four fields the page's `Employee` type declares | not executed | SurveyListPage.ServedEmployeesBreakSearch | SurveyListPage.CompleteRowsFilter |
