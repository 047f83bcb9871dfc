# Kisan Sahyog Connect — a Dafny model of the portal's decision logic

Kisan Sahyog Connect is a React portal where farmers look up government schemes, check eligibility, track applications, upload documents and receive alerts. All its data is mocked in the components. What it decides lives in small functions inside those components. This project restates those functions as pure Dafny functions over immutable datatypes and sequences, and proves what they promise:

- **Two eligibility checkers.**
  - The routed page is lenient. It needs a name and an age. A blank or unparseable optional answer passes, and bank/Kisan card fail only on an explicit "no".
  - The embedded component is strict. An unanswered or unparseable criterion that the scheme declares fails.
  - Each checker yields one verdict per catalogue scheme, with its unmet criteria in a fixed order.
- **Search filters.** The scheme catalogue and the application list are filtered by case-insensitive substring match, plus a category match for schemes.
- **Application status.** The status colour, the status label and the certificate offer.
- **Document checklist.** Upload, removal and the completion totals.
- **Alerts panel.** Mark read, delete, prepend a new alert, the unread count, the relative-time text and the notification toggles.
- **Mock sign-in context.** Login acceptance and role and name derivation, registration, logout, profile update and session restore.
- **Login page.** The registration validation and defaults, and the input routing between the two forms.
- **Application assistant.** Step gating, progress, the keyword bot and the message send guard, plus the reusable step list.
- **Translation lookup.** Key fall-back, language switch and language restore.
- **Profile card helpers.** Initials, role colour, role label and location line.
- **Route guard.** The four-way render decision.

Shared modules:
- `Optional` (in `lists.dfy`) models `undefined`/`null`/`NaN` answers as `Option`.
- `Lists` gives order-preserving `filter`, counts and sums.
- `Text` gives ASCII case mapping, `includes`, `split`, `trim` emptiness, capitalisation, first-occurrence `replace` and decimal rendering.
- `NumParse` gives the decimal prefix grammar of `parseInt`/`parseFloat`.

The clock, generated ids, browser storage, timers and randomness are parameters or left out. Every transition is immediate.

## Model

| member | source | states |
|---|---|---|
| EligibilityForm.ReadNumbers | src/pages/EligibilityChecker.tsx:99-131 | The age, land size and income are the `parseInt`/`parseFloat` readings of the form's strings, and a blank land size or income reads as no number (`NaN`). |
| NumParse.BlankIsNaN | src/pages/EligibilityChecker.tsx:112-131 | A blank or whitespace-only field parses to `NaN` for both `parseInt` and `parseFloat`. |
| NumParse.ParseRendered | src/pages/EligibilityChecker.tsx:99 | Reading back the decimal rendering of a natural number, followed by any non-numeric text ("30 years"), gives that number. |
| NumParse.ParseInt | src/pages/EligibilityChecker.tsx:99 | Whenever `parseInt` reads a number, `parseFloat` reads one from the same text, and the integer is that number with its fraction dropped towards zero. |
| NumParse.ParseFloat | src/pages/EligibilityChecker.tsx:113 | A number read after a minus sign is never positive, and one read without it is never negative. |
| NumParse.FractionBelowOne | src/pages/EligibilityChecker.tsx:113 | The digits after the point add less than one to the integer part. |
| LenientEligibility.Evaluate | src/pages/EligibilityChecker.tsx:101-153 | The verdict echoes the scheme name. `isEligible` holds exactly when no reason was recorded. `ageEligible` holds exactly when the age parses and lies in the inclusive range. |
| LenientEligibility.PassesAll | src/pages/EligibilityChecker.tsx:102-147 | The scheme is passed exactly when none of its seven criteria fails. |
| LenientEligibility.ReasonsMatchViolations | src/pages/EligibilityChecker.tsx:105-147 | The reasons are exactly the violated criteria, in the order age, land, ownership, income, farming type, bank, card. An unparseable age, land size or income violates nothing. A blank ownership or farming type violates nothing. Bank and card are violated only by "no". |
| LenientEligibility.EvaluateAll | src/pages/EligibilityChecker.tsx:101-154 | One result per scheme, in catalogue order. |
| LenientEligibility.Check | src/pages/EligibilityChecker.tsx:87-101 | Nothing is evaluated when the name or the age is blank. Otherwise there is one result per catalogue scheme, echoing its name. |
| LenientEligibility.ReasonsDetermined | src/pages/EligibilityChecker.tsx:101-147 | Any rank-ordered list holding exactly the violated criteria is the list the page computes. |
| LenientEligibility.BlankAnswersLeaveOnlyAge | src/pages/EligibilityChecker.tsx:106-152 | With a parsed age and every optional answer blank, a scheme is eligible exactly when it is age-eligible. |
| LenientEligibility.EligibleImpliesAgeEligible | src/pages/EligibilityChecker.tsx:106-152 | With a parsed age, an eligible scheme is age-eligible. |
| LenientEligibility.EligibleCountBounded | src/pages/EligibilityChecker.tsx:159-160 | With a name and a parsed age, the eligible count never exceeds the age-eligible count. |
| LenientEligibility.UnparsedAgeCounterexample | src/pages/EligibilityChecker.tsx:99-152 | For age "abc", PM-KISAN is reported eligible but not age-eligible. |
| LenientEligibility.LandNowWithinBound | src/pages/EligibilityChecker.tsx:112-118 | A parsed land size above a declared bound, replaced by one within it, removes exactly the land reason, and every other reason stays. |
| LenientEligibility.IncomeNowWithinBound | src/pages/EligibilityChecker.tsx:124-130 | A parsed income above a declared bound, replaced by one within it, removes exactly the income reason, and every other reason stays. |
| StrictEligibility.Evaluate | src/components/EligibilityChecker.tsx:72-131 | The verdict echoes the scheme name, and `isEligible` holds exactly when no reason was recorded. |
| StrictEligibility.PassesAll | src/components/EligibilityChecker.tsx:73-125 | The scheme is passed exactly when none of its seven criteria fails. |
| StrictEligibility.CriteriaMatchReasons | src/components/EligibilityChecker.tsx:76-125 | Each criterion's reason carries that criterion's rank, and a reason of a given rank is recorded exactly when that criterion fails with exactly that reason. |
| StrictEligibility.MissingMatchesViolations | src/components/EligibilityChecker.tsx:76-125 | For given parse results, the reasons are exactly the violated criteria, in rank order. |
| StrictEligibility.ReasonsMatchViolations | src/components/EligibilityChecker.tsx:76-125 | The reasons are exactly the violated criteria, in the order land, ownership, income, farming type, age, bank, card. A declared land, income or age bound fails on a blank or unparseable answer. Ownership fails unless equal. Farming type fails unless listed. Bank and card fail unless "yes". An undeclared criterion never fails. |
| StrictEligibility.ReasonsDetermined | src/components/EligibilityChecker.tsx:72-131 | Any rank-ordered list holding exactly the violated criteria is the list the component computes. |
| StrictEligibility.EvaluateAll | src/components/EligibilityChecker.tsx:72-132 | One result per scheme, in order. |
| StrictEligibility.Check | src/components/EligibilityChecker.tsx:72-132 | The component always evaluates, giving one result per catalogue scheme in order. |
| StrictEligibility.NoCriteriaAcceptsAll | src/components/EligibilityChecker.tsx:76-125 | A scheme declaring no criterion accepts every form with no reasons. |
| StrictEligibility.NoneEligible | src/components/EligibilityChecker.tsx:139 | If no scheme accepts the form, the eligible count is zero. |
| StrictEligibility.UnansweredFails | src/components/EligibilityChecker.tsx:86-119 | An unanswered bank question, or an unanswered ownership where owned land is required, makes the scheme ineligible. |
| StrictEligibility.UnansweredEligibleForNone | src/components/EligibilityChecker.tsx:26-59 | With bank account and ownership unanswered, no catalogue scheme accepts the form. |
| StrictEligibility.BlankFormEligibleForNone | src/components/EligibilityChecker.tsx:26-59 | The untouched form is eligible for none of the four schemes. |
| StrictEligibility.BankAccountNeedsYes | src/components/EligibilityChecker.tsx:116-119 | Where a bank account is required, any answer other than exactly "yes" makes the scheme ineligible. |
| StrictEligibility.TighteningKeepsReasons | src/components/EligibilityChecker.tsx:116-125 | Adding the Kisan card requirement keeps every earlier reason, adds no reason other than the card reason, and adds the card reason exactly when the card answer is not "yes". |
| StrictEligibility.TightenedLists | src/components/EligibilityChecker.tsx:116-125 | For any lists holding exactly the violations before and after the card criterion is declared, the second holds the first plus at most the card reason. |
| StrictEligibility.LandNowWithinBound | src/components/EligibilityChecker.tsx:77-83 | A land size that failed a declared bound (too large or not a number), replaced by one within it, removes exactly the land reason, and every other reason stays. |
| StrictEligibility.IncomeNowWithinBound | src/components/EligibilityChecker.tsx:92-98 | An income that failed a declared bound, replaced by one within it, removes exactly the income reason, and every other reason stays. |
| EligibilityForm.PushesExact | src/components/EligibilityChecker.tsx:73-125 | Pushing a reason for each failing criterion in turn yields exactly the failing criteria's reasons, ordered by criterion. |
| EligibilityForm.RankedListsEqual | src/pages/EligibilityChecker.tsx:103-147 | Two rank-ordered reason lists with the same members are equal, so the reason list is determined by the set of violations. |
| SchemeSearch.Filtered | src/pages/Schemes.tsx:189-194 | A scheme is kept exactly when the lower-cased query occurs in its lower-cased title or description, and the category is "All" or equal. |
| SchemeSearch.FilteredKeepsOrder | src/pages/Schemes.tsx:189 | The result is an order-preserving subsequence of the catalogue. |
| SchemeSearch.EmptySearchShowsAll | src/pages/Schemes.tsx:190-192 | An empty query under "All" shows the whole catalogue. |
| SchemeSearch.ShowingCounts | src/pages/Schemes.tsx:261 | The shown count is the number of matching schemes, and never exceeds the total. |
| SchemeSearch.InitialCounts | src/pages/Schemes.tsx:18-187 | The page opens showing 12 of 12 schemes. |
| SchemeSearch.FilteredIdempotent | src/pages/Schemes.tsx:189-194 | Filtering the result again changes nothing. |
| SchemeSearch.QueryCaseIgnored | src/pages/Schemes.tsx:190-191 | Upper- or lower-casing the query does not change the result. |
| SchemeSearch.CategoryNarrows | src/pages/Schemes.tsx:192 | Selecting a category never shows more than "All". |
| ApplicationStatus.ColorOf | src/pages/ApplicationStatus.tsx:62-76 | "approved" and "completed" are green, "under-review" blue, "pending" yellow, "rejected" red. |
| ApplicationStatus.GrayIffUnknown | src/pages/ApplicationStatus.tsx:73-74 | Gray exactly for the statuses not listed. |
| ApplicationStatus.CompletedGreenWithoutCertificate | src/pages/ApplicationStatus.tsx:64-66 | A completed application shares the approved colour but is not offered a certificate. |
| ApplicationStatus.CertificateImpliesGreen | src/pages/ApplicationStatus.tsx:221 | An application offered a certificate is shown green. |
| ApplicationStatus.StatusLabel | src/pages/ApplicationStatus.tsx:173 | The label has the status's length. |
| ApplicationStatus.StatusLabelFirstDashOnly | src/pages/ApplicationStatus.tsx:173 | Without a dash the label is the status. Otherwise only the first dash becomes a space, and every other character is kept. |
| ApplicationStatus.UnderReviewLabel | src/pages/ApplicationStatus.tsx:173 | "under-review" is shown as "under review". |
| ApplicationStatus.FilterApplications | src/pages/ApplicationStatus.tsx:108-111 | An application is kept exactly when the lower-cased query occurs in its lower-cased scheme name or application number, and each kept application appears as many times as in the list. |
| ApplicationStatus.FilterKeepsOrder | src/pages/ApplicationStatus.tsx:108 | The result is an order-preserving subsequence of the list. |
| ApplicationStatus.EmptyQueryKeepsAll | src/pages/ApplicationStatus.tsx:108-111 | An empty query keeps every application, in order. |
| ApplicationStatus.FilterApplicationsIdempotent | src/pages/ApplicationStatus.tsx:108-111 | Filtering the result again changes nothing. |
| Documents.DocType | src/pages/Documents.tsx:97 | Never empty. `DocTypeSubtype`, `DocTypeOfMimeType`, `DocTypeWithoutSlash` and `DocTypeEmptySubtype` state its value: the upper-cased part after the first slash, or "UNKNOWN" when there is no slash or nothing follows it. |
| Documents.DocTypeOfMimeType | src/pages/Documents.tsx:97 | "major/minor" with a non-empty minor part gives the minor part upper-cased. |
| Documents.DocTypeWithoutSlash | src/pages/Documents.tsx:97 | A type without a slash, the empty type included, gives "UNKNOWN". |
| Documents.DocTypeSubtype | src/pages/Documents.tsx:97 | Only the part between the first and second slash counts: it is upper-cased, or "UNKNOWN" when it is empty. |
| Documents.DocTypeEmptySubtype | src/pages/Documents.tsx:97 | A type with nothing after its slash, such as "image/", gives "UNKNOWN". |
| Documents.PdfType | src/pages/Documents.tsx:97 | "application/pdf" gives type "PDF". |
| Documents.NewDocument | src/pages/Documents.tsx:94-102 | An uploaded file becomes a document with the given id, the file's name, status uploaded, category "General" and the type from its MIME type. |
| Documents.NewDocuments | src/pages/Documents.tsx:93-104 | One new document per file, in the order of the files. |
| Documents.HandleFiles | src/pages/Documents.tsx:92-104 | The new documents are appended after the existing ones, which are unchanged. |
| Documents.RemoveDocument | src/pages/Documents.tsx:119-120 | Exactly the documents with a different id remain, each as many times as it occurred. |
| Documents.RemoveKeepsOrder | src/pages/Documents.tsx:120 | The remaining documents keep their order. |
| Documents.SameIdRemovedTogether | src/pages/Documents.tsx:92-120 | Two files uploaded in the same millisecond share an id, and removing one removes both. |
| Documents.RemoveAbsentId | src/pages/Documents.tsx:119-120 | Removing an id no document carries leaves the list unchanged. |
| Documents.UploadThenRemove | src/pages/Documents.tsx:90-120 | Uploading one file under a fresh id and then removing that id gives back the original list. |
| Documents.TotalsBounded | src/pages/Documents.tsx:149-150 | The uploaded total never exceeds the required total. It equals it exactly when every category's badge is complete. |
| Documents.CompletionPercentage | src/pages/Documents.tsx:151 | Undefined (`NaN`) exactly when nothing is required. Otherwise between 0 and 100, and 100 exactly when every category is complete. |
| Documents.ChecklistTotals | src/pages/Documents.tsx:45-70 | The page's checklist requires 5 documents and counts 2 uploaded, which is 40 per cent. |
| Alerts.UnreadCount | src/components/RealTimeAlerts.tsx:197 | The unread count is at most the number of alerts, and zero exactly when all are read. |
| Alerts.MarkAsRead | src/components/RealTimeAlerts.tsx:133-137 | Length and order are kept. An alert becomes read exactly when it was read or has the id. Every other field is unchanged. |
| Alerts.MarkAsReadIdempotent | src/components/RealTimeAlerts.tsx:133-137 | Marking the same id twice is the same as once. |
| Alerts.MarkAsReadUnreadCount | src/components/RealTimeAlerts.tsx:133-137 | The unread count drops by exactly the number of unread alerts with that id, so it never rises. |
| Alerts.DeleteAlert | src/components/RealTimeAlerts.tsx:139-141 | Exactly the alerts with a different id remain, each as many times as it occurred. |
| Alerts.DeleteKeepsOrder | src/components/RealTimeAlerts.tsx:140 | The remaining alerts keep their order. |
| Alerts.NewAlert | src/components/RealTimeAlerts.tsx:111-119 | A new alert is unread and stamped with the given time and id. |
| Alerts.PushAlert | src/components/RealTimeAlerts.tsx:121 | The new alert goes first, and the rest is the old list. |
| Alerts.PushRaisesUnread | src/components/RealTimeAlerts.tsx:111-121 | Prepending a new alert raises the unread count by exactly one. |
| Alerts.PushThenRead | src/components/RealTimeAlerts.tsx:121-137 | Reading a new alert with a fresh id right after it arrives brings the unread count back to what it was. |
| Alerts.Bucket | src/components/RealTimeAlerts.tsx:169-180 | "Just now" exactly under a minute. Otherwise whole minutes under an hour, whole hours under a day, then whole days, each the floor of the elapsed time. |
| Alerts.BucketRanges | src/components/RealTimeAlerts.tsx:172-179 | Each range shows the floor quotient of its unit. |
| Alerts.FormatTimestamp | src/components/RealTimeAlerts.tsx:169-180 | The text is "Just now" exactly when less than a minute has passed. |
| Alerts.AgoTextJustNow | src/components/RealTimeAlerts.tsx:169-180 | Only the first bucket reads "Just now", and every other text ends in "ago". |
| Alerts.FormatTimestampUnits | src/components/RealTimeAlerts.tsx:169-180 | Past the first minute the text is the floor count of minutes below an hour, of hours below a day, and of days beyond, followed by "m ago", "h ago" or "d ago". |
| Alerts.HalfAnHourAgo | src/components/RealTimeAlerts.tsx:172-177 | Thirty minutes ago reads "30m ago". |
| Alerts.Toggle | src/components/RealTimeAlerts.tsx:327-330 | Toggling flips exactly one setting and keeps the others. |
| Alerts.ToggleTwice | src/components/RealTimeAlerts.tsx:327-330 | Toggling the same setting twice restores the settings. |
| Auth.RestoreSession | src/contexts/AuthContext.tsx:54-75 | Loading ends. The stored user is restored exactly when a non-empty token and stored user data exist. |
| Auth.AcceptsCredentialsIff | src/contexts/AuthContext.tsx:85 | A login is accepted exactly when the email contains "@" and the password is non-empty. |
| Auth.RolePriority | src/contexts/AuthContext.tsx:87-96 | Admin exactly when the email contains "admin". Officer exactly when it does not but contains "officer". Farmer otherwise. |
| Auth.NameFromLocalPart | src/contexts/AuthContext.tsx:96-102 | For an ordinary address the name is the part before "@" with its first letter upper-cased. |
| Auth.MockUser | src/contexts/AuthContext.tsx:104-113 | The logged-in user carries the email, the derived role and name, and the fixed Delhi profile. |
| Auth.Login | src/contexts/AuthContext.tsx:77-128 | Loading ends. The result is true exactly for accepted credentials, which sign in the mock user. A refused login leaves the user as it was. |
| Auth.Register | src/contexts/AuthContext.tsx:130-158 | Registration always succeeds and signs in a user carrying exactly the submitted fields. |
| Auth.Logout | src/contexts/AuthContext.tsx:160-164 | Nobody is signed in afterwards. |
| Auth.Merge | src/contexts/AuthContext.tsx:174 | Each supplied field overrides, and every other field is kept. |
| Auth.MergeLaws | src/contexts/AuthContext.tsx:174 | An empty patch changes nothing, and the same patch twice equals once. |
| Auth.UpdateProfile | src/contexts/AuthContext.tsx:166-184 | Refused, with nothing changed, exactly when nobody is signed in. Otherwise the patch is merged into the user. |
| Auth.LoginAfterLogout | src/contexts/AuthContext.tsx:85-121 | Whether a login succeeds does not depend on who was signed in. A refused login after logout leaves nobody signed in. |
| LoginPage.InputChange | src/pages/Login.tsx:139-145 | On the login tab only the login record changes, otherwise only the register record. |
| LoginPage.RegisterChangeSetsOneField | src/pages/Login.tsx:139-145 | On the register tab exactly the named field, the role included, takes the value, and every other field keeps its value. |
| LoginPage.RoleSelectReachesRegistration | src/pages/Login.tsx:326 | Choosing a role in the register form's role select sets the role that a valid submission registers. |
| LoginPage.LoginChangeSetsOneField | src/pages/Login.tsx:141 | On the login tab the email or password field takes the value. |
| LoginPage.OrDefault | src/pages/Login.tsx:116-119 | A non-empty value passes through, and an empty one becomes the default. |
| LoginPage.HandleRegister | src/pages/Login.tsx:94-121 | A mismatch is reported exactly when the passwords differ. "Too short" is reported exactly when they agree but have fewer than 4 characters. `register` is called exactly otherwise. |
| LoginPage.SubmittedData | src/pages/Login.tsx:112-121 | The submitted name, email, password and role are as typed. Each of phone, Aadhaar number, state and district is the typed value when non-empty and its fixed default when blank. |
| LoginPage.MismatchReportedFirst | src/pages/Login.tsx:99-107 | A short, mismatched pair is reported as a mismatch. |
| LoginPage.RegisteredUserHasProfile | src/pages/Login.tsx:112-121 | A valid registration signs in a user with the typed email and role and a non-empty state and district. |
| Assistant.FlowsNumbered | src/components/ApplicationAssistant.tsx:30-104 | Both flows are non-empty and number their steps 1, 2, … by position. |
| Assistant.Progress | src/components/ApplicationAssistant.tsx:107 | Progress is positive from step 1, at most 100 within the flow, and 100 exactly at the last step. |
| Assistant.InitialProgress | src/components/ApplicationAssistant.tsx:19-107 | The assistant opens at 20 per cent for PM-KISAN and 25 per cent for Fasal Bima. |
| Assistant.StepClick | src/components/ApplicationAssistant.tsx:139-141 | Only a step at or before the current one is selected, so the current step never rises. Nothing else changes. |
| Assistant.ClicksNeverAdvance | src/components/ApplicationAssistant.tsx:139-141 | No sequence of clicks raises the current step. Clicks on later steps leave it unchanged. |
| Assistant.StuckAtFirstStep | src/components/ApplicationAssistant.tsx:139-141 | Starting at step 1, clicking displayed steps keeps the assistant at step 1. |
| Assistant.BotReply | src/components/ApplicationAssistant.tsx:123-137 | The first matching topic decides the reply, on the lower-cased message: documents/upload, then bank/account, then land/khasra, then status/track, else the general reply. |
| Assistant.BotReplyIgnoresCase | src/components/ApplicationAssistant.tsx:124 | Letter case does not change the reply. |
| Assistant.UploadWinsOverBank | src/components/ApplicationAssistant.tsx:126-129 | A message starting "Upload" gets the document reply even when it mentions a bank. |
| Assistant.SendMessage | src/components/ApplicationAssistant.tsx:109-121 | A blank draft changes nothing. Otherwise the draft is appended as a user message, the input is cleared, and the bot's reply to it is pending. |
| Assistant.DeliverReply | src/components/ApplicationAssistant.tsx:115-118 | The reply is appended, and nothing else changes. |
| Assistant.SendThenDeliver | src/components/ApplicationAssistant.tsx:110-118 | Sending, then receiving the reply, adds the question and its answer in that order. |
| StepProgress.HandleStepClick | src/components/StepProgress.tsx:32-40 | A later step is ignored. Otherwise the parent is told the step, and the title is that of position `stepId - 1` when such a step exists. |
| StepProgress.NeverAhead | src/components/StepProgress.tsx:33-34 | The parent never receives a step ahead of the current one. |
| StepProgress.DisplayedStepsLookUp | src/components/StepProgress.tsx:34-37 | With steps numbered by position, a click on a displayed step is ignored or announces that very step. |
| StepProgress.FlowClicksLookUp | src/components/StepProgress.tsx:37 | In the assistant's flows the title lookup never fails. |
| Language.FromCode | src/contexts/LanguageContext.tsx:644-649 | A code is read back as the language it names, and as nothing when no language has it. |
| Language.CodeRoundTrip | src/contexts/LanguageContext.tsx:651-654 | Reading a language's code back gives the language. |
| Language.Lookup | src/contexts/LanguageContext.tsx:656-658 | The translation when present and non-empty, else the key itself. |
| Language.LookupSources | src/contexts/LanguageContext.tsx:657 | The answer is a table entry or the key, and is empty only for the empty key. |
| Language.MissingKeyShownAsIs | src/contexts/LanguageContext.tsx:657 | A key missing from the current table is shown as itself. |
| Language.SampleLookups | src/contexts/LanguageContext.tsx:656-658 | "action.save" reads "Save" in English and "सेव्ह करा" in Marathi, and a key no table holds is shown as itself in every language. |
| Language.SampledKeysShared | src/contexts/LanguageContext.tsx:23-635 | Every language's table holds each sampled key, so none of them falls back to the key. |
| Language.SetLanguage | src/contexts/LanguageContext.tsx:651-654 | The new language is current, and the stored code reads back as it. |
| Language.Restore | src/contexts/LanguageContext.tsx:642-649 | A saved code with a table selects its language. Otherwise English stays. |
| Language.SaveThenRestore | src/contexts/LanguageContext.tsx:644-654 | What `setLanguage` stores, a restore selects. |
| UserProfile.FirstChars | src/components/UserProfile.tsx:55-57 | One character per non-empty word. |
| UserProfile.FirstCharsConcat | src/components/UserProfile.tsx:55-57 | The first characters of two word lists joined are those of the first list followed by those of the second. |
| UserProfile.FirstCharsAppend | src/components/UserProfile.tsx:55-57 | A word added at the end contributes its own first character at the end, and an empty word contributes nothing. |
| UserProfile.Initials | src/components/UserProfile.tsx:53-60 | At most two characters, none a lower-case ASCII letter. |
| UserProfile.InitialsOfTwoWords | src/components/UserProfile.tsx:53-60 | "Rajesh Kumar"-style names give the upper-cased first letters of both words. |
| UserProfile.InitialsIgnoreLaterWords | src/components/UserProfile.tsx:59 | Words after the second do not change the initials. |
| UserProfile.InitialsOfOneWord | src/components/UserProfile.tsx:53-60 | A one-word name gives its upper-cased first letter. |
| UserProfile.TakeTwo | src/components/UserProfile.tsx:59 | `slice(0, 2)` gives a prefix of at most two characters: exactly two when there are that many, otherwise the whole string. |
| UserProfile.SplitTwoWords | src/components/UserProfile.tsx:55 | Splitting at spaces yields the first two space-free words, then the pieces of the rest. |
| UserProfile.LeadingInitials | src/components/UserProfile.tsx:55-59 | Two leading non-empty words decide the initials, whatever words follow. |
| UserProfile.RoleColor | src/components/UserProfile.tsx:40-51 | Admin red, officer blue, farmer green, anything else gray. |
| UserProfile.RoleLabel | src/components/UserProfile.tsx:83 | The first letter is upper-cased and the rest kept. |
| UserProfile.RoleLabelKeepsRole | src/components/UserProfile.tsx:83 | The label differs from the role only in letter case. |
| UserProfile.Location | src/components/UserProfile.tsx:193-196 | "district, state" when both are present and non-empty, else "Not provided". |
| UserProfile.MockUserLocation | src/contexts/AuthContext.tsx:111-112 | A mock-login user's location line reads "New Delhi, Delhi". |
| ProtectedRoute.Decide | src/components/ProtectedRoute.tsx:13-58 | Spinner exactly while loading. Redirect to /login exactly when not loading and signed out. Access denied exactly when signed in with a required role that differs. The page otherwise. |
| ProtectedRoute.LoggedOutNeverSeesChildren | src/components/ProtectedRoute.tsx:17-33 | After logout a protected page is never shown, and once loading ends it redirects to /login. |
| ProtectedRoute.AdminPageAfterLogin | src/components/ProtectedRoute.tsx:35-58 | After a mock login, an admin-only page opens exactly for addresses containing "admin". |
| ProtectedRoute.FarmerDeniedOfficerPage | src/components/ProtectedRoute.tsx:35-56 | A farmer who signed in through the mock login is denied an officer page. |
| ProtectedRoute.OpenPageForAnyUser | src/components/ProtectedRoute.tsx:58 | A page with no required role opens for any signed-in user once loading ends. |
| Text.IncludesIffOccurs | src/pages/Schemes.tsx:190-191 | `includes` holds exactly when the needle occurs at some position. |
| Text.ReplaceFirstPositions | src/pages/ApplicationStatus.tsx:173 | A string `replace` changes only the first occurrence, and leaves the string as is when there is none. |
| Text.SplitJoin | src/contexts/AuthContext.tsx:100 | Joining the pieces of a split with the separator gives back the string. |
| Text.Split | src/contexts/AuthContext.tsx:100 | `split` yields at least one piece, and no piece holds the separator. |
| Text.ReplaceFirst | src/pages/ApplicationStatus.tsx:173 | A string `replace` of one character by another keeps the length. |
| Text.Lower | src/pages/Schemes.tsx:190 | `toLowerCase` keeps the length and lower-cases each ASCII capital at its position, leaving other characters unchanged. |
| Text.Upper | src/pages/Documents.tsx:97 | `toUpperCase` keeps the length and upper-cases each ASCII small letter at its position, leaving other characters unchanged. |
| Lists.FilterIsSubsequence | src/pages/Documents.tsx:120 | `filter` keeps an order-preserving subsequence. |
| Lists.FilterIdempotent | src/pages/Schemes.tsx:189 | Filtering twice with the same predicate is filtering once. |
| Lists.FilterMultiset | src/pages/Documents.tsx:120 | `filter` keeps every occurrence of each element that passes and no occurrence of any other. |
| Lists.Filter | src/pages/Documents.tsx:120 | `filter` keeps exactly the elements that pass, and is never longer than its input. |

## Left out

- Rendering, CSS classes other than the colour decisions, icons, toasts and navigation are left out. They are presentation.
- `setTimeout` delays and simulated network latency are left out. Each operation is an immediate transition. The assistant's delayed bot reply is a second transition, `Assistant.DeliverReply`.
- `localStorage` is left out as I/O. `Auth.RestoreSession` and `Language.Restore` take what storage held as parameters. A stored user that fails to parse is modelled as absent.
- `Date.now()` ids, `new Date()` timestamps and upload dates are parameters (`id`, `now`, `today`).
- `getDaysUntilDeadline` (`Math.ceil` on dates) and `formatDate` (locale formatting) are left out.
- The random alert generator is left out, because it is nondeterministic. Only its prepend step is modelled, as `Alerts.PushAlert`.
- File sizes as "x.y MB" (`toFixed`), `toLocaleString` in reason texts and `Math.round` of percentages are left out as floating-point and locale formatting. Reasons are an abstract datatype carrying the scheme's bound.
- NumParse.ParseInt, NumParse.ParseFloat, EligibilityForm.ReadNumbers: exponents, "Infinity" and the "0x" prefix of `parseInt` are not modelled. The decimal digit-prefix grammar is. Numbers are read exactly, as `int` and `real`, not rounded to an IEEE double. An income such as "200000.00000000001" rounds to 200000 in JavaScript and passes a 200000 limit, while the model reads a larger value and fails it. The same holds for land sizes, and for `parseInt` results above 2^53.
- Text.Lower, Text.Upper: only ASCII letters change case. Unicode case mapping and UTF-16 code units are not modelled.
- LoginPage.HandleRegister, UserProfile.Initials, UserProfile.TakeTwo: lengths and indices count Unicode scalar values, not UTF-16 code units as JavaScript does. For password and confirmation "😀😀", JavaScript counts 4 and registers the user, while the model counts 2 and reports the password as too short. Likewise a name whose first letter lies outside the Basic Multilingual Plane gives a lone surrogate as its JavaScript initial, while the model gives the whole letter.
- Language.Table: each language's table holds the same three sampled keys out of its 76, not all of them.
- Language.Restore: JavaScript also treats inherited object properties ("toString", "constructor") as truthy table entries. The model accepts only the six language codes.
- Auth.UpdateProfile: a patch key that is present with the value `undefined` is treated as absent. JavaScript would store `undefined`.
- Alerts.Toggle: the source flips the value captured at render time, not the latest state. This equals a flip when there are no intervening updates, which is all the model states.
- LenientEligibility.Evaluate, StrictEligibility.Evaluate: a catalogue requirement that is an empty string or zero (falsy in JavaScript) does not occur in either catalogue. A present requirement is treated as declared.
- Documents.HandleFiles: the caller supplies one id per file. The source uses `Date.now()` for each, so files dropped together usually share an id (see `Documents.SameIdRemovedTogether`).
- The initial name "Demo User" in login is always overwritten before use, so it is not modelled.
- The application assistant's per-step status badges are static data and are not derived from the current step.
- LenientEligibility.Evaluate, StrictEligibility.Evaluate: the two checkers treat a blank or unparseable answer differently, and each is modelled as its code behaves. The routed page ignores an unparseable land size, income or age, so it passes. The embedded component fails a declared criterion whose answer is blank or does not parse.
- The files that only render or pass data through (Index, ContactSupport, SchemeApplicationForm, ChatInterface, ChatMessage, SearchAndFilter, SchemeHeader, SchemeResults, SchemeSelector, SchemeCard, LanguageSwitcher, App) are not part of this model.
