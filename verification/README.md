# JobWise, modelled in Dafny

JobWise is a small React job board with a job catalog, user accounts, skill-based job
recommendations, a keyword search and a scripted career chatbot. All of its data lives
in memory:

- `src/lib/mockDatabase.ts` holds a user table that grows on registration and a fixed
  catalog of seven postings.
- `src/contexts/AuthContext.tsx` keeps the signed-in user. It mirrors that user into a
  persisted browser slot.
- The pages are `RegisterPage`, `DashboardPage`, `ProfilePage`, `JobsPage` and
  `ChatbotPage`. They hold form and editor state, and they call the store and the
  session layer.

This project models that core and proves what it promises:

- `MockDatabase`:
  - The user table is a class with an append and an in-place skill update. Its ids stay
    `"1"`, `"2"`, … in table order.
  - First-match e-mail lookup.
  - Recommendation is a filter by shared skill followed by a stable sort on descending
    overlap. It is specified by membership, multiplicity, order and per-overlap
    stability.
  - Case-insensitive search.
- `AuthContext`: a class holding the session user and its persisted copy, which stay
  equal through `Login`, `Register`, `Logout` and `UpdateSkills`.
- `Chatbot`: the reply function is a first-match table of keyword rules with a fallback.
  The proofs cover:
  - matching is case-insensitive
  - the greeting takes precedence
  - the exact condition under which the role-suggestion branch answers
  - two duplicated rules can never fire
  - the contents of the role-suggestion reply
- `SkillSelection`: the skill picker shared by three pages. It has at most five skills
  and no duplicates. The proofs show a click keeps a valid selection valid, two clicks
  restore it, and a checkbox is disabled exactly when a click would do nothing.
- `RegisterPage`, `DashboardPage`, `ProfilePage`, `JobsPage`: each page's state is a
  class, and each handler is a method specified against the functions above. This
  includes the password checks, the top-three slice, the match percentage with its
  rounding and badge colour, and the blank-query rule of the search form.
- Supporting modules:
  - `Options` holds the option type.
  - `Text` holds the JavaScript string operations used: ASCII `toLowerCase`, `includes`,
    `join`, decimal `toString`, `trim`, and UTF-16 `length`.
  - `Seqs` holds `filter`, the stable sort, subsequences and distinctness.

`Math.round((m / n) * 100)` is modelled exactly as round-half-up of the rational
`100m/n`, which is `(200m + n) div 2n`. An empty skill list makes the source compute
NaN. That case is modelled as "no percentage", and a NaN percentage never takes the
accent colour. Every seeded posting has between one and five required skills.

## Model

| member | source | states |
|---|---|---|
| MockDatabase.UserStore.constructor | src/lib/mockDatabase.ts:31-39 | the table starts as the single seeded user, with id "1" |
| MockDatabase.GetAllJobs | src/lib/mockDatabase.ts:155-157 | the catalog holds seven postings whose ids are pairwise distinct |
| MockDatabase.CatalogWellFormed | src/lib/mockDatabase.ts:42-114 | every seeded posting lists one to five required skills, and no posting is listed twice |
| MockDatabase.FindUserByEmail | src/lib/mockDatabase.ts:117-119 | none exactly when no user has the e-mail (compared case-sensitively); otherwise the first user in table order that has it |
| MockDatabase.UserStore.RegisterUser | src/lib/mockDatabase.ts:121-131 | appends exactly one user, whose id is the old length plus one in decimal; earlier entries are unchanged; there is no duplicate check; the sequential-id invariant is kept |
| MockDatabase.SequentialIdsAreUnique | src/lib/mockDatabase.ts:121-131 | under the sequential-id invariant no two users share an id |
| MockDatabase.IndexOfId | src/lib/mockDatabase.ts:134 | `findIndex`: none exactly when no id matches; otherwise the first matching index |
| MockDatabase.IndexOfSequentialId | src/lib/mockDatabase.ts:133-135 | under the invariant, the id of the k-th user is found at index k-1 |
| MockDatabase.UserStore.UpdateUserSkills | src/lib/mockDatabase.ts:133-139 | with no matching id, returns none and changes nothing; otherwise replaces only the skills of the first match and returns that user |
| MockDatabase.MatchingSkills | src/lib/mockDatabase.ts:149-150 | the required skills the user has, in their original order (a subsequence); each skill the user has occurs as often as the posting lists it, and no other skill occurs |
| MockDatabase.MatchingSkillsCount | src/lib/mockDatabase.ts:149-150 | there are exactly as many matching skills as required entries that occur in the user's skills, counted one entry at a time |
| MockDatabase.Overlap | src/lib/mockDatabase.ts:149-150 | the overlap count is at most the number of required skills, and positive exactly when the posting shares a skill with the user |
| MockDatabase.OverlapIsSharedCount | src/lib/mockDatabase.ts:148-150 | the count the sort compares is the number of the posting's required entries that occur in the user's skills |
| MockDatabase.GetRecommendedJobs | src/lib/mockDatabase.ts:141-153 | empty skills give the catalog itself. Otherwise: a posting is in the result exactly when it is in the catalog and shares a skill, with the catalog's multiplicity; overlap never increases along the result; for each positive overlap the postings with that overlap keep their catalog order (the sort is stable) |
| MockDatabase.RecommendedOnce | src/lib/mockDatabase.ts:144-147 | each seeded posting that shares a skill appears exactly once among the recommendations |
| MockDatabase.SearchJobs | src/lib/mockDatabase.ts:159-167 | a subsequence of the catalog in catalog order; a posting is kept exactly when the lower-cased query occurs in its lower-cased title, company, description or some skill; an empty query keeps everything |
| MockDatabase.SearchIgnoresQueryCase | src/lib/mockDatabase.ts:160 | searching for the lower-cased query returns the same postings as the query itself |
| Seqs.SortByKeyDescending | src/lib/mockDatabase.ts:147-152 | the sort's result is a permutation of its input, in non-increasing key order |
| Seqs.SortIsStable | src/lib/mockDatabase.ts:147-152 | elements with equal keys keep their relative input order |
| Seqs.FilterCount | src/lib/mockDatabase.ts:144 | `filter` keeps every occurrence of a passing element and drops every failing one |
| Text.NatToStringInjective | src/lib/mockDatabase.ts:123 | distinct numbers give distinct decimal ids (parsing the decimal text undoes `toString`) |
| Text.LowerIdempotent | src/lib/mockDatabase.ts:160 | lower-casing twice equals lower-casing once |
| AuthContext.LoginUser | src/contexts/AuthContext.tsx:44-45 | a login signs in a user exactly when the first user with the e-mail has exactly that password, and the user signed in is that first user; it is in the table and has those credentials |
| AuthContext.LoginNotice | src/contexts/AuthContext.tsx:48-60 | the failure toast is shown exactly when nobody is signed in |
| AuthContext.LoginFailureIsUniform | src/contexts/AuthContext.tsx:54-60 | an unknown e-mail and a wrong password produce the same failure toast |
| AuthContext.RegisterKeepsEmailsUnique | src/contexts/AuthContext.tsx:82-92 | registering only unused e-mails keeps every e-mail in the table unique |
| AuthContext.LoginAfterRegister | src/contexts/AuthContext.tsx:92-94 | right after a registration, the same credentials log in as the new user |
| AuthContext.AuthProvider.constructor | src/contexts/AuthContext.tsx:30-37 | mounting restores the session from the persisted slot, and the two agree |
| AuthContext.AuthProvider.Login | src/contexts/AuthContext.tsx:39-70 | succeeds exactly when the lookup finds the user and the password matches; on success the session and the slot become that user; on failure they stay unchanged; the toast follows the outcome |
| AuthContext.AuthProvider.Register | src/contexts/AuthContext.tsx:72-109 | fails exactly when the e-mail is taken, and then leaves the table, session and slot unchanged; otherwise the table grows by exactly the new user, and the session and slot become that user |
| AuthContext.AuthProvider.Logout | src/contexts/AuthContext.tsx:111-119 | the session is empty and the slot is cleared |
| AuthContext.AuthProvider.UpdateSkills | src/contexts/AuthContext.tsx:121-132 | with no session user, does nothing. Otherwise replaces only the session user's skills and mirrors them to the slot. The user table is never touched |
| Text.TrimEmptyIffBlank | src/pages/JobsPage.tsx:53 | a query is empty after `trim` exactly when all its characters are JavaScript whitespace |
| Chatbot.GroupHoldsIff | src/pages/ChatbotPage.tsx:56 | an alternative of keywords holds exactly when one of its keywords occurs |
| Chatbot.AllGroupsHoldIff | src/pages/ChatbotPage.tsx:61 | a rule holds exactly when each of its alternatives holds |
| Chatbot.FirstMatch | src/pages/ChatbotPage.tsx:55-175 | the first rule, in source order, whose test holds; none exactly when no rule holds |
| Chatbot.Respond | src/pages/ChatbotPage.tsx:49-179 | with no rule holding on the lower-cased text, the fallback reply; otherwise the reply of the first rule that holds |
| Chatbot.CaseInsensitive | src/pages/ChatbotPage.tsx:50 | a message and its lower-cased form get the same reply |
| Chatbot.GreetingWins | src/pages/ChatbotPage.tsx:56-58 | a message containing "hello" or "hi " (in any case) always gets the greeting, whatever else it contains |
| Chatbot.RecommendBranch | src/pages/ChatbotPage.tsx:76 | the role-suggestion rule is the one that answers exactly when the text has "recommend" and either "job" or "career", and none of the four earlier tests holds; its answer is then the role-suggestion reply |
| Chatbot.RecommendReply | src/pages/ChatbotPage.tsx:77-97 | no user or no skills gives the fixed "update your skills profile" reply; otherwise the role-suggestion text |
| Chatbot.SuggestionText | src/pages/ChatbotPage.tsx:78-94 | the suggestion starts with the opening words followed by the comma-joined skills, and contains every skill and every role line |
| Chatbot.RoleLines | src/pages/ChatbotPage.tsx:79-94 | each role line appears exactly when the user has one of its trigger skills; the full-stack line appears exactly when both the frontend and the backend tests pass |
| Chatbot.FullStackIffFrontendAndBackend | src/pages/ChatbotPage.tsx:79-88 | the Full Stack line appears exactly when both the Frontend and the Backend lines appear |
| Chatbot.SubsumedRuleUnreachable | src/pages/ChatbotPage.tsx:134-136 | a rule whose test implies the test of an earlier rule can never be the first match |
| Chatbot.SecondInterviewRuleUnreachable | src/pages/ChatbotPage.tsx:134-136 | the second "interview" rule never answers: the rule at line 71 always fires first |
| Chatbot.SecondNetworkingRuleUnreachable | src/pages/ChatbotPage.tsx:167-169 | the second "networking" rule never answers: the rule at line 110 always fires first |
| Text.Join | src/pages/ChatbotPage.tsx:78 | `join` of no parts is empty; otherwise the result starts with the first part, followed by the separator when there are two or more parts, ends with the last part, and contains every part |
| Text.JoinLength | src/pages/ChatbotPage.tsx:78 | the joined text is as long as all the parts together plus one separator between each two neighbours |
| Text.JoinPartAt | src/pages/ChatbotPage.tsx:78 | the i-th part occurs in the joined text at `PartStart(parts, sep, i)`: after each earlier part and the separator that follows it |
| Text.JoinSeparatorAt | src/pages/ChatbotPage.tsx:78 | right after every part but the last, the separator occurs, and it ends exactly where the next part starts |
| Text.JoinEnd | src/pages/ChatbotPage.tsx:78 | the joined text ends exactly at the end of the last part; with the two lemmas above, the parts and separators tile the whole text, so it is determined |
| SkillSelection.Without | src/pages/RegisterPage.tsx:28 | removes every occurrence of the skill and keeps every other skill as often as it occurs, in order; the list gets shorter when the skill was present |
| SkillSelection.ToggleSkill | src/pages/RegisterPage.tsx:26-34 | a selected skill is removed (every occurrence), the other skills staying in order with their multiplicities; an unselected one is appended at the end below five, and ignored at five or more |
| SkillSelection.ToggleKeepsSelectionValid | src/pages/RegisterPage.tsx:26-34 | a duplicate-free selection of at most five stays duplicate-free and at most five after any click |
| SkillSelection.ToggleTwiceRestores | src/pages/RegisterPage.tsx:26-34 | below the cap, clicking an unselected skill twice restores the selection |
| SkillSelection.DisabledIffToggleIsNoOp | src/pages/ProfilePage.tsx:153 | a checkbox is disabled (unselected, with five selected) exactly when clicking it would change nothing |
| RegisterPage.PasswordError | src/pages/RegisterPage.tsx:39-47 | a mismatch is reported first, even for a short password; with equal passwords shorter than six UTF-16 units the length message is shown; the message is empty exactly when both checks pass |
| RegisterPage.SixIsEnough | src/pages/RegisterPage.tsx:44 | the bound is inclusive: six units are accepted, five are not |
| RegisterPage.RegisterForm.constructor | src/pages/RegisterPage.tsx:16-22 | the form starts with no skills selected and no password message |
| RegisterPage.RegisterForm.ToggleSkill | src/pages/RegisterPage.tsx:26-34 | the selection becomes the picker's toggle of it |
| RegisterPage.RegisterForm.HandleSubmit | src/pages/RegisterPage.tsx:36-58 | records the password message. The session layer is called only when the message is empty, and then registration succeeds exactly when the e-mail is free. A rejected submission, whether for the password or for a taken e-mail, leaves the table and the session unchanged. A successful one signs in the new user, who has the form's fields and the selected skills |
| DashboardPage.DashboardState.constructor | src/pages/DashboardPage.tsx:24-26 | no recommendations, not editing, nothing selected |
| DashboardPage.DashboardState.OnUserChange | src/pages/DashboardPage.tsx:36-45 | with a user, the selection becomes the user's skills and the recommendations become those for those skills; without one, nothing changes |
| DashboardPage.DashboardState.ToggleSkill | src/pages/DashboardPage.tsx:47-55 | the selection becomes the picker's toggle of it; recommendations and edit mode are unchanged |
| DashboardPage.DashboardState.SaveSkills | src/pages/DashboardPage.tsx:57-64 | the selection becomes the session user's skills, editing ends, and the recommendations are recomputed from the selection, so they match the session user again |
| DashboardPage.DashboardState.Cancel | src/pages/DashboardPage.tsx:168-171 | the selection reverts to the user's skills and editing ends |
| DashboardPage.DashboardState.StartEditing | src/pages/DashboardPage.tsx:188 | editing starts; selection and recommendations are unchanged |
| DashboardPage.TopRecommendations | src/pages/DashboardPage.tsx:210 | the first three recommendations, or all of them when there are fewer, in recommendation order |
| DashboardPage.TopRecommendationsAreBest | src/pages/DashboardPage.tsx:210 | every card shown shares a skill with the user, and no recommendation left out has a larger overlap than a card shown |
| DashboardPage.ShownCardsScorePositive | src/pages/DashboardPage.tsx:218-221 | for a user with skills, every card shown has a defined match percentage above 0 |
| ProfilePage.ProfileState.constructor | src/pages/ProfilePage.tsx:18-19 | not editing, nothing selected |
| ProfilePage.ProfileState.OnUserChange | src/pages/ProfilePage.tsx:29-33 | with a user, the selection becomes the user's skills; without one, nothing changes |
| ProfilePage.ProfileState.ToggleSkill | src/pages/ProfilePage.tsx:35-43 | the selection becomes the picker's toggle of it |
| ProfilePage.ProfileState.SaveSkills | src/pages/ProfilePage.tsx:45-48 | the selection becomes the session user's skills and editing ends |
| ProfilePage.ProfileState.HandleLogout | src/pages/ProfilePage.tsx:50-53 | nobody is signed in afterwards, and the persisted slot agrees |
| ProfilePage.ProfileState.CheckboxDisabled | src/pages/ProfilePage.tsx:153 | the checkbox is disabled exactly when clicking it would leave the selection as it is |
| ProfilePage.ProfileState.Cancel | src/pages/ProfilePage.tsx:190-193 | the selection reverts to the user's skills and editing ends |
| ProfilePage.ProfileState.StartEditing | src/pages/ProfilePage.tsx:207 | editing starts; the selection is unchanged |
| JobsPage.RoundedPercent | src/pages/JobsPage.tsx:158 | `Math.round((m / n) * 100)` as round-half-up, bracketed by 200m+n; at most 100; 100 when everything matches; 0 exactly when 200m < n; at least 50 exactly when 200m ≥ 99n |
| JobsPage.MatchPercentage | src/pages/JobsPage.tsx:157-158 | no percentage (NaN) exactly when the posting has no required skills; otherwise the rounded share of the overlap |
| JobsPage.CardPercentageFollowsOverlap | src/pages/JobsPage.tsx:157-158 | of two postings listing equally many skills, the one with the larger recommender overlap shows a percentage at least as high, and equal overlaps show equal percentages |
| JobsPage.AccentIffHalfMatched | src/pages/JobsPage.tsx:168 | the badge takes the accent colour exactly when the posting has skills and at least 49.5% of them match |
| JobsPage.JobsPageState.constructor | src/pages/JobsPage.tsx:29-31 | empty lists and an empty query |
| JobsPage.JobsPageState.LoadJobs | src/pages/JobsPage.tsx:41-49 | the list becomes the whole catalog; with a user, the recommendations become those for the user's skills; the query is unchanged |
| JobsPage.JobsPageState.HandleSearch | src/pages/JobsPage.tsx:51-59 | a query that is blank after trimming shows the whole catalog; otherwise the search result for the untrimmed query |
| JobsPage.JobsPageState.ResetSearch | src/pages/JobsPage.tsx:61-64 | the query is emptied and the list is the whole catalog |
| JobsPage.JobsPageState.SetSearchQuery | src/pages/JobsPage.tsx:96 | the query becomes the input's text; the lists are unchanged |

## Left out

- `src/pages/AIChatPage.tsx` is not part of this model. It is a network call to a third-party chat-completion service.
- Latency: the artificial `setTimeout` delays in `login`, `register` and the chatbot are left out. So are the `async`/`await` interleaving and React's batching of state updates. Each handler is modelled as one atomic step.
- Persistence: `localStorage` and JSON (de)serialisation are a plain field of the session class. The mount effect receives the stored user as a parameter.
- Display-only code is left out: toasts (only their text is modelled), navigation and redirects, loading flags (`isLoading` in the session layer and in the registration form), and JSX rendering. `Index.tsx`, `Layout.tsx`, `NavBar.tsx` and `LoginPage.tsx` are not part of this model; the last only forwards to `login`.
- The `try`/`catch` branches of `login` and `register` are left out. Nothing inside them throws in this in-memory model.
- The chat transcript (`handleSendMessage`) is left out. Only the reply function is modelled.
- The `availableSkills` list is left out. The skill picker is modelled for any skill name.
- `toLowerCase` is modelled on ASCII letters only. Other letters are left as they are.
- Aliasing: after `login` or `register` (src/contexts/AuthContext.tsx:46 and :93) the session user and the table entry are one shared object. The model keeps them as two values. `updateSkills` builds a new object, so there the table stays unchanged in the source too. But `updateUserSkills` (src/lib/mockDatabase.ts:133-138) writes the skills in place, so in the source it would also change the signed-in session user when that is the user it updates. MockDatabase.UserStore.UpdateUserSkills changes only the table and leaves the session user as it was. Nothing in the application calls `updateUserSkills`.
- Chatbot.Respond: the reply texts are modelled exactly. No lemma exhibits a specific message reaching the fallback, for example the suggested question "What skills should I learn to advance my career?". Proving that no keyword occurs in a given literal message is beyond what the verifier evaluates here.
- JobsPage.RoundedPercent: computes the exact rational round-half-up of 100m/n, not the double-precision `m / n * 100` followed by `Math.round`. When the exact value is a half, the floating-point product can land just below it and round down. With at most five required skills, as in every seeded posting, no share is an exact half.
- Chatbot.GenerateMockBotResponse: carries no contract of its own. It is the rule table applied by Chatbot.Respond, and the lemmas about the table are stated through it.
