# EMS front-end: a verified model of its forms, lists, session and endpoints

The EMS front-end is a React client for an employee-management REST API. Admins manage
employees, leave types, leave requests and payroll. Employees edit their profile, apply
for leave and read their salary slips. Apart from fetching and rendering, the client's
logic sits in four places, and this project models all four in Dafny:

1. **Form checks.** Nine of the eleven forms have a per-field rule that runs on every
   edit and stores one slot of an error map, and a whole-form check that decides whether
   the submit request is sent. The leave editor's inputs only store their values, and its
   save check alone fills the error map. The payroll form has no error map: its submit is
   guarded by both selections being made. Each form is a `class` holding the form values and the
   error map. The regular expressions are written out as predicates on strings:
   - `Patterns.LooseEmail` for `\S+@\S+\.\S+`;
   - `Patterns.StrictEmail` for the case-insensitive address pattern;
   - `Patterns.ExactDigits` and `Patterns.DigitsBetween` for the digit patterns.

   JavaScript's `trim`, `toLowerCase`, `includes`, string `<` and `length` are written
   out in `JsText`. `length` counts UTF-16 code units, so a character outside the Basic
   Multilingual Plane (an emoji) counts twice in every minimum-length check.
2. **List screens.** The employee list, payroll list, leave list and leave-type list
   cover four operations:
   - department, status and search filters, which keep the fetched order;
   - the Previous/Next pager;
   - row serial numbers;
   - delete-by-id.

   Each screen is a `class`. For the employee and payroll lists its invariant says the
   shown list is the filtered list; the leave and leave-type lists show what was fetched.
   The pager is a shared `Pagination.Pager` object.
3. **Session state.** `localStorage` and `sessionStorage` are two `map<string, string>`
   fields of `Storage.BrowserStorage`. This part covers:
   - sign-in, which writes the token, the user record (through `JSON.stringify`) and the role;
   - sign-out, which removes the token, the record and the toast flag but keeps the role;
   - the route guard;
   - the once-per-session welcome toast;
   - the two-step forgot-password flow;
   - the password change, which signs the user out.
4. **Endpoint URLs.** The constant URLs and the id-parameterised builders of
   `src/constants/api.ts`. Rendering an id as `${id}` is modelled in decimal for numbers.

The model reproduces the code as written, divergences included:
- Three forms (personal details, update employee, update leave type) compute their submit
  verdict from the error map as it stood before the submit.
- The add-employee submit check puts the joining-date error on an empty contact number.
- Live and submit rules differ in the add-employee form.
- The two leave-type forms count lengths untrimmed and trimmed respectively.

In the add-employee form the live rule (src/components/AddEmployeeForm.tsx:64-66) rejects a
two-letter first name such as "Al" with "Minimum 3 characters", but the submit check
(src/components/AddEmployeeForm.tsx:101-103) only tests for a blank first name, so such a
name is sent. `AddEmployeeForm.ShortFirstNameAccepted` states it.

Server calls are parameters: a fetch is an `Option` (`None` when the request fails) and a
save is a `serverOk` flag. `window.confirm` is a boolean parameter. Toasts and navigation
are outcome values. "Today" for the date-of-birth check is a day-number parameter.

## Model

| member | source | states |
|---|---|---|
| JsText.TrimStart | src/components/UpdatePersonalDetailForm.tsx:54-58 | the result is a suffix of the input, starts with a non-space (or is empty), and only white space was removed |
| JsText.TrimEnd | src/components/UpdatePersonalDetailForm.tsx:54-58 | the result is a prefix of the input, ends with a non-space (or is empty), and only white space was removed |
| JsText.BlankIffTrimsToEmpty | src/components/UpdatePersonalDetailForm.tsx:54-58 | `!value.trim()` holds exactly when the value is all white space |
| JsText.TrimPadded | src/components/UpdateEducationDetailForm.tsx:97-102 | trimming removes exactly the white-space padding around a core that starts and ends with a non-space |
| JsText.TrimKeepsUnpadded | src/components/UpdateEmployeeForm.tsx:86-92 | a value with no leading or trailing white space is its own trim |
| JsText.Lower | src/components/EmployeeList.tsx:71-76 | lowering keeps the length, maps each character by itself, and leaves no ASCII capital |
| JsText.IncludesIffOccurs | src/components/EmployeeList.tsx:74-76 | `includes` holds exactly when the needle occurs at some position of the text |
| JsText.LexLessIrreflexive | src/components/ApplyLeaveForm.tsx:45-49 | no string is before itself in `<` order |
| JsText.LexLessTransitive | src/components/ApplyLeaveForm.tsx:45-49 | string `<` is transitive |
| JsText.LexLessTotal | src/components/ApplyLeaveForm.tsx:45-49 | of two different strings one is before the other |
| JsText.LexLessAsymmetric | src/components/ApplyLeaveForm.tsx:45-49 | two strings are never each before the other |
| JsText.LexLessConcat | src/components/ApplyLeaveForm.tsx:45-49 | for equal-length heads, order of the concatenations is decided by the heads and, on equal heads, by the tails |
| JsText.Length | src/pages/ChangePassword.tsx:22 | `length` counts UTF-16 code units: at least one and at most two per character |
| JsText.LengthConcat | src/pages/ChangePassword.tsx:22 | the length of a concatenation is the sum of the lengths |
| JsText.LengthCountsCharacters | src/pages/ChangePassword.tsx:22 | `length` equals the number of characters exactly when every character lies in the Basic Multilingual Plane |
| JsText.PairLength | src/pages/ChangePassword.tsx:22 | two characters take one code unit each, two for one outside the Basic Multilingual Plane |
| JsText.BeforeT | src/components/UpdatePersonalDetailForm.tsx:31-33 | the text before the first 'T': a prefix without 'T', followed in the input by 'T' unless it is the whole input |
| Patterns.LooseEmailAccepts | src/components/UpdateBasicDetailForm.tsx:58 | any three non-empty space-free parts joined by '@' and '.' match the loose pattern |
| Patterns.FirstIndex | src/components/UpdateEmployeeForm.tsx:89 | the position of the first occurrence of a character, or the length when absent |
| Patterns.LastIndex | src/components/UpdateEmployeeForm.tsx:89 | the position of the last occurrence of a character, or -1 when absent |
| Patterns.StrictEmailCorrect | src/components/UpdateEmployeeForm.tsx:89 | the executable strict-address check holds exactly when the address splits into a local part, '@', a domain and a final dot followed by at least two letters |
| Patterns.StrictImpliesLoose | src/components/UpdateEmployeeForm.tsx:89 | every address the strict pattern accepts is accepted by the loose one |
| Patterns.LooseNotStrict | src/components/UpdateBasicDetailForm.tsx:58 | "a@b.c" passes the loose pattern and fails the strict one, so the two forms disagree on it |
| Lists.Filter | src/components/EmployeeList.tsx:57-81 | a value is in the result exactly when it is in the input and passes the predicate, and the result is no longer than the input |
| Lists.FilterIsSubseq | src/components/EmployeeList.tsx:58-80 | filtering yields an order-preserving subsequence |
| Lists.FilterFilter | src/components/EmployeeList.tsx:58-80 | filtering twice is filtering once by the conjunction |
| Lists.FilterKeepsAll | src/components/EmployeeList.tsx:60-68 | a filter that every element passes keeps the list as it is |
| Lists.FilterExt | src/components/EmployeeList.tsx:58-80 | filters that agree on the list's elements give the same result |
| Pagination.Pager.constructor | src/components/EmployeeList.tsx:24-26 | a new pager is on page 1 of 1 with the given limit |
| Pagination.Pager.SetTotal | src/components/EmployeeList.tsx:40 | the fetched total replaces the page count and the page stays |
| Pagination.Pager.Previous | src/components/EmployeeList.tsx:231-232 | Previous is usable unless on page 1 and steps the page down by one |
| Pagination.Pager.Next | src/components/EmployeeList.tsx:243-244 | Next is usable unless on the last page and steps the page up by one |
| Pagination.StepsStayInRange | src/components/SalaryDetail.tsx:181-194 | from a page within 1..total, each enabled step stays within 1..total |
| Pagination.ZeroTotalNeverDisablesNext | src/components/EmployeeList.tsx:243 | with a total of zero pages Next is never disabled, on any page |
| Pagination.SerialsConsecutive | src/components/ManageLeaves.tsx:77 | serial numbers are positive, one apart within a page, continue across a page break, and lie in ((page-1)*limit, page*limit] |
| Pagination.SerialInjective | src/components/ManageLeaves.tsx:77 | two rows of any pages with the same serial number are the same row of the same page |
| UserJson.HexCharValue | src/pages/Login.tsx:23 | a hexadecimal digit written by the escape reads back as its value |
| UserJson.ReadUnicodeEscape | src/pages/Login.tsx:23 | a control character written as a `\u00XY` escape reads back as itself |
| UserJson.ReadShortEscape | src/pages/Login.tsx:23 | a character written as a two-character escape reads back as itself |
| UserJson.ReadEscapedChar | src/pages/Login.tsx:23 | reading back one escaped character gives that character in front of what the rest reads as |
| UserJson.ReadEscaped | src/pages/Login.tsx:23 | reading back an escaped string up to its closing quote gives the string and the rest |
| UserJson.FieldRoundTrip | src/components/Sidebar.tsx:32 | a field written as key and quoted value reads back as that value |
| UserJson.ParseStringify | src/components/Sidebar.tsx:28-33 | parsing the stored `JSON.stringify` text of a user gives back the same user |
| UserJson.StringifyInjective | src/pages/Login.tsx:23 | different user records are stored as different texts |
| Storage.BrowserStorage.constructor | src/middleware/RequireAuth.tsx:9 | the two stores start with the given contents |
| RequireAuth.Guard | src/middleware/RequireAuth.tsx:8-16 | children render exactly when the token is present and non-empty; otherwise the only other result is a replacing redirect to /Login |
| RequireAuth.GuardDependsOnlyOnToken | src/middleware/RequireAuth.tsx:9-15 | two stores with the same token entry get the same decision, whatever their role or other keys |
| RequireAuth.AnyTokenRenders | src/middleware/RequireAuth.tsx:9-15 | any non-empty token is accepted without being checked |
| Login.FailureMessage | src/pages/Login.tsx:31 | the toast text is never empty: the server's message when it is non-empty, else "Login failed." |
| Login.HandleLogin | src/pages/Login.tsx:13-33 | on success localStorage gains the token, the stringified user and the role, then the page navigates to /dashboard; on failure storage is unchanged and the failure message is shown; sessionStorage is never touched |
| Login.SignedInStores | src/pages/Login.tsx:22-24 | after sign-in the token and role keys hold the token and the user's role, the user key parses back to the user, and every other key is unchanged |
| Sidebar.StoredUser | src/components/Sidebar.tsx:27-38 | a user is shown only when the stored record is present and parses to it; no stored record shows no user |
| Sidebar.MenuRole | src/components/Sidebar.tsx:48 | the menu role is the stored record's role when it is non-empty, and null otherwise |
| Sidebar.MenuByRole | src/components/Sidebar.tsx:78-149 | Dashboard comes first and Payroll last for every role; Employees, Leaves Types and Leaves Management appear exactly for ADMIN; My Profile and Leave exactly for EMPLOYEE; an unknown role sees only Dashboard and Payroll |
| Sidebar.HandleLogout | src/components/Sidebar.tsx:40-46 | logout removes token and user from localStorage and the toast flag from sessionStorage, and navigates to "/" |
| Sidebar.LogoutClears | src/components/Sidebar.tsx:41-43 | after logout no user is shown and the guard sees no token, yet the role key is kept |
| Sidebar.MenuAfterLogin | src/components/Sidebar.tsx:27-48 | right after sign-in the sidebar shows the signed-in user and the menu for their role |
| Dashboard.ToastStep | src/pages/Dashboard.tsx:31-54 | with the flag set no toast shows and nothing changes; ADMIN is welcomed, and EMPLOYEE greeted only once the record is loaded; the flag is set exactly when a toast shows |
| Dashboard.ToastAtMostOnce | src/pages/Dashboard.tsx:32-52 | once a toast was shown, no later run of the effect in the same session shows another |
| Dashboard.EmployeeWaitsForRecord | src/pages/Dashboard.tsx:43-53 | an employee without a loaded record gets no toast and the flag stays clear; with the record they are greeted by first name |
| Dashboard.ViewOf | src/pages/Dashboard.tsx:56-124 | loading shows only for EMPLOYEE, ADMIN gives the admin view, and any other role gives "Role not recognized" |
| Dashboard.DashboardPage.constructor | src/pages/Dashboard.tsx:13-15 | the role is read from localStorage once; no record is loaded yet and the page is loading |
| Dashboard.DashboardPage.LoadEffect | src/pages/Dashboard.tsx:18-28 | the stored record is parsed only for EMPLOYEE with a stored user, and loading ends for every role |
| Dashboard.DashboardPage.ToastEffect | src/pages/Dashboard.tsx:31-54 | the toast and the new sessionStorage are those of `ToastStep`; localStorage is unchanged |
| Dashboard.FirstEmployeeVisit | src/pages/Dashboard.tsx:18-53 | an employee signing in to a fresh browser is greeted by first name and sees the welcome view |
| ForgotPassword.ChangePasswordRoute | src/pages/ForgotPassword.tsx:31 | the route is "/change-password?email=" followed by the encoded address |
| ForgotPassword.RouteCarriesEmail | src/pages/ForgotPassword.tsx:29-31 | the encoded address holds no '&', '=' or '#' and percent-decodes to the address's UTF-8 bytes |
| ForgotPassword.ForgotPasswordPage.constructor | src/pages/ForgotPassword.tsx:7-9 | the page starts with empty address and code and no code sent |
| ForgotPassword.ForgotPasswordPage.EditEmail | src/pages/ForgotPassword.tsx:57-59 | the address can be edited only while no code was sent, and the edit changes only the address |
| ForgotPassword.ForgotPasswordPage.EditOtp | src/pages/ForgotPassword.tsx:65-74 | the code can be edited only once a code was sent, and the edit changes only the code |
| ForgotPassword.ForgotPasswordPage.HandleSendOtp | src/pages/ForgotPassword.tsx:13-23 | `otpSent` becomes true exactly when the request succeeds and never goes back; a failure changes nothing |
| ForgotPassword.ForgotPasswordPage.HandleVerifyOtp | src/pages/ForgotPassword.tsx:26-36 | a successful verification routes to the change-password page for the current address; a failure routes nowhere |
| ForgotPassword.ForgotPasswordPage.Submit | src/pages/ForgotPassword.tsx:49 | the form sends a code until one was sent and verifies from then on; `otpSent` never returns to false |
| ForgotPassword.Flow | src/pages/ForgotPassword.tsx:13-65 | a failed send keeps the e-mail step, a successful one locks the address and shows the code input, and a successful verification leads to the change-password page for that address |
| Api.Decimal | src/constants/api.ts:12 | a number's decimal rendering is a non-empty run of digits |
| Api.DecimalRoundTrip | src/constants/api.ts:12 | reading the rendered digits back gives the number |
| Api.NegativeText | src/constants/api.ts:12 | a negative id renders as '-' followed by its magnitude in decimal |
| Api.NonNegativeText | src/constants/api.ts:12 | a non-negative id renders as its decimal digits and starts with a digit |
| Api.DecimalInjective | src/constants/api.ts:12 | different numbers render differently |
| Api.SignVisible | src/constants/api.ts:12 | a rendered id starts with '-' exactly when it is negative |
| Api.NumberTextInjective | src/constants/api.ts:12 | two numeric ids render alike only when they are equal |
| Api.AuthUnderBase | src/constants/api.ts:3-8 | every auth URL is the base URL followed by a path starting with "/" |
| Api.UsersUnderBase | src/constants/api.ts:10-16 | every users URL is the base URL followed by a path starting with "/" |
| Api.LeaveTypesUnderBase | src/constants/api.ts:18-24 | every leave-type URL is the base URL followed by a path starting with "/" |
| Api.LeavesUnderBase | src/constants/api.ts:26-32 | every leave URL is the base URL followed by a path starting with "/" |
| Api.PayrollUnderBase | src/constants/api.ts:34-41 | every payroll URL is the base URL followed by a path starting with "/" |
| Api.ProfileUnderBase | src/constants/api.ts:43-52 | every profile and cards URL is the base URL followed by a path starting with "/" |
| Api.AllEndpointsUnderBase | src/constants/api.ts:1-52 | every endpoint, for every id, is the base URL followed by a path starting with "/" |
| Api.SharedUrls | src/constants/api.ts:11-23 | users lookup, update and delete share one URL per id, listing and creating users share one, and likewise for leave types |
| Api.LeaveLookupIsNotUpdate | src/constants/api.ts:30-31 | leave lookup is "/leaves/allLeave/{id}" and never the update URL "/leaves/{id}" |
| Api.DownloadShape | src/constants/api.ts:40 | the download URL is the base, "/payroll/", the id and "/download" |
| Api.BuildersInjective | src/constants/api.ts:12-40 | each id builder gives different URLs for ids that render differently |
| Api.TextAndNumberMeet | src/constants/api.ts:12 | the numeric id 7 and the text id "7" reach the same URL |
| Api.AuthHeader | src/services/authService.ts:12-15 | the header is "Bearer " followed by the token, and "Bearer null" when there is none |
| Uri.Utf8 | src/pages/ForgotPassword.tsx:31 | a character encodes as one to four bytes, as itself exactly when it is ASCII |
| Uri.HexRoundTrip | src/pages/ForgotPassword.tsx:31 | an upper-case hex digit reads back as its value |
| Uri.PercentBytes | src/pages/ForgotPassword.tsx:31 | each byte becomes three characters "%XY" |
| Uri.EncodeURIComponent | src/pages/ForgotPassword.tsx:31 | encoding never shortens the text |
| Uri.DecodeEscape | src/pages/ForgotPassword.tsx:31 | "%XY" decodes to the byte 16*X+Y in front of the rest |
| Uri.DecodePercentBytes | src/pages/ForgotPassword.tsx:31 | percent-escaped bytes decode back to those bytes |
| Uri.DecodeEncode | src/pages/ForgotPassword.tsx:31 | decoding the encoding of a text gives its UTF-8 bytes |
| Uri.EncodedIsSafe | src/pages/ForgotPassword.tsx:31 | every encoded character is unreserved or '%' |
| Uri.UnreservedUnchanged | src/pages/ForgotPassword.tsx:31 | text made of unreserved characters is left as it is |
| IsoDate.DigitValue | src/components/ApplyLeaveForm.tsx:45-49 | an ASCII digit's value is below ten |
| IsoDate.DayKey | src/components/UpdatePersonalDetailForm.tsx:71-74 | a day number exists exactly for a well-formed "yyyy-mm-dd" text |
| IsoDate.DigitsBound | src/components/ApplyLeaveForm.tsx:45-49 | n digits spell a number below 10^n |
| IsoDate.DigitsFront | src/components/ApplyLeaveForm.tsx:45-49 | the leading digit weighs 10^(n-1) |
| IsoDate.DigitsOrder | src/components/ApplyLeaveForm.tsx:45-49 | on digit runs of one length string order is numeric order, and equal texts are equal numbers |
| IsoDate.DateTextOrder | src/components/ApplyLeaveForm.tsx:45-49 | for date texts, string `<` is day order and string equality is same-day |
| IsoDate.KeyOrder | src/components/ApplyLeaveForm.tsx:45-49 | the day number orders dates year first, then month, then day |
| UpdateEducationDetailForm.FieldsListed | src/components/UpdateEducationDetailForm.tsx:10-25 | the field list names every field |
| UpdateEducationDetailForm.UnsetNeverErrors | src/components/UpdateEducationDetailForm.tsx:78-79 | an empty text or a zero CGPA is never an error, whatever the field |
| UpdateEducationDetailForm.WhitespaceOnlyIsError | src/components/UpdateEducationDetailForm.tsx:82-95 | a non-empty all-space degree, college, research or result entry gets the minimum-three error rather than being skipped |
| UpdateEducationDetailForm.TextRule | src/components/UpdateEducationDetailForm.tsx:82-95 | a filled text field passes exactly when its trimmed text is at least three UTF-16 code units long, and its only error is the minimum-three message |
| UpdateEducationDetailForm.YearRule | src/components/UpdateEducationDetailForm.tsx:97-102 | a filled year passes exactly when its trimmed text is four ASCII digits, and otherwise gets the year message |
| UpdateEducationDetailForm.CgpaRule | src/components/UpdateEducationDetailForm.tsx:104-108 | a non-zero CGPA errors exactly when below 0 or above 10, and 10 itself passes |
| UpdateEducationDetailForm.Loaded | src/components/UpdateEducationDetailForm.tsx:40-55 | the loaded values are the server's for every field it sent and unset for the rest |
| UpdateEducationDetailForm.Form.constructor | src/components/UpdateEducationDetailForm.tsx:10-25 | every field starts unset and no error is recorded |
| UpdateEducationDetailForm.Form.Load | src/components/UpdateEducationDetailForm.tsx:40-55 | a fetched record fills the form; a failed fetch leaves it; errors are untouched |
| UpdateEducationDetailForm.Form.HandleChange | src/components/UpdateEducationDetailForm.tsx:64-116 | the edit stores the value and sets only that field's error slot to its rule's verdict |
| UpdateEducationDetailForm.Form.ValidateForm | src/components/UpdateEducationDetailForm.tsx:119-167 | every field is re-checked from the current values, the map is replaced wholesale, and the check passes exactly when no field fails |
| UpdateEducationDetailForm.Form.HandleSubmit | src/components/UpdateEducationDetailForm.tsx:170-187 | the save is blocked exactly when some field fails its rule; otherwise it is saved exactly when the server accepts |
| UpdateEducationDetailForm.OnlyUndergraduateFilled | src/components/UpdateEducationDetailForm.tsx:119-187 | a form with only the undergraduate group filled in correctly is saved |
| UpdateEducationDetailForm.PaddedYearAccepted | src/components/UpdateEducationDetailForm.tsx:97-102 | a four-digit year with a space on each side is accepted, because the year rule reads the trimmed text |
| UpdateEducationDetailForm.PaddedDegreeTooShort | src/components/UpdateEducationDetailForm.tsx:82-88 | two non-space characters followed by a space are a degree too short exactly when both are single code units (the padding does not count, a surrogate pair counts twice), and pass otherwise |
| UpdatePersonalDetailForm.FieldsListed | src/components/UpdatePersonalDetailForm.tsx:9-16 | the field list names every field |
| UpdatePersonalDetailForm.NameRule | src/components/UpdatePersonalDetailForm.tsx:54-58 | a parent name is "required" exactly when blank, "minimum three" exactly when non-blank with under three trimmed UTF-16 code units, and passes otherwise |
| UpdatePersonalDetailForm.ContactRule | src/components/UpdatePersonalDetailForm.tsx:60-64 | a parent contact passes exactly when its trimmed text is ten ASCII digits |
| UpdatePersonalDetailForm.AddressRule | src/components/UpdatePersonalDetailForm.tsx:66-69 | the address passes exactly when at least ten UTF-16 code units remain after trimming |
| UpdatePersonalDetailForm.DateOfBirthRule | src/components/UpdatePersonalDetailForm.tsx:71-74 | an empty date is "required", a readable date after today is "in the future", and today passes |
| UpdatePersonalDetailForm.LoadedBirthDate | src/components/UpdatePersonalDetailForm.tsx:31-33 | a missing date loads as ""; a stored one as its longest prefix without 'T', so a date without 'T' loads unchanged |
| UpdatePersonalDetailForm.LoadedTimestamp | src/components/UpdatePersonalDetailForm.tsx:31-33 | a stored timestamp loads as its date part |
| UpdatePersonalDetailForm.Form.constructor | src/components/UpdatePersonalDetailForm.tsx:9-16 | every field starts empty and no error is recorded |
| UpdatePersonalDetailForm.Form.Load | src/components/UpdatePersonalDetailForm.tsx:25-34 | a fetched profile fills the form with the date of birth cut at 'T'; a failed fetch changes nothing; errors are untouched |
| UpdatePersonalDetailForm.Form.HandleChange | src/components/UpdatePersonalDetailForm.tsx:43-81 | the edit stores the value and sets only that field's slot to its verdict |
| UpdatePersonalDetailForm.Form.ValidateForm | src/components/UpdatePersonalDetailForm.tsx:84-92 | the new map copies every slot from the map as it stood before the submit, and the check passes exactly when every old slot was empty |
| UpdatePersonalDetailForm.Form.HandleSubmit | src/components/UpdatePersonalDetailForm.tsx:101-117 | the save is blocked exactly when some pre-submit slot held an error; otherwise it is saved exactly when the server accepts |
| UpdatePersonalDetailForm.UntouchedFormIsSaved | src/components/UpdatePersonalDetailForm.tsx:84-117 | a form whose fields were never touched is saved with every required field empty, and saved again |
| UpdatePersonalDetailForm.ErrorThenFix | src/components/UpdatePersonalDetailForm.tsx:43-117 | an address error shown while typing (under ten trimmed UTF-16 code units) blocks the submit, and once the address is corrected the next submit is saved |
| UpdateBasicDetailForm.FirstNameCountsPadding | src/components/UpdateBasicDetailForm.tsx:49-51 | the first name's length is counted before trimming: " Al" passes, "Al" does not |
| UpdateBasicDetailForm.ContactRule | src/components/UpdateBasicDetailForm.tsx:61-64 | the contact number passes exactly when it is ten ASCII digits as typed |
| UpdateBasicDetailForm.EmailRule | src/components/UpdateBasicDetailForm.tsx:56-59 | the e-mail passes exactly when it matches the loose pattern |
| UpdateBasicDetailForm.FirstRecorded | src/components/UpdateBasicDetailForm.tsx:82-84 | the submit check records the first name's message exactly when the first name fails the rule |
| UpdateBasicDetailForm.LastRecorded | src/components/UpdateBasicDetailForm.tsx:86 | the submit check records the last name's message exactly when it is blank |
| UpdateBasicDetailForm.EmailRecorded | src/components/UpdateBasicDetailForm.tsx:88-90 | the submit check records the e-mail's message exactly when it fails the rule |
| UpdateBasicDetailForm.ContactRecorded | src/components/UpdateBasicDetailForm.tsx:92-95 | the submit check records the contact's message exactly when it fails the rule |
| UpdateBasicDetailForm.SubmitMatchesLive | src/components/UpdateBasicDetailForm.tsx:45-98 | for every field the submit check's entry is the live rule's message |
| UpdateBasicDetailForm.LiveAndSubmitAgree | src/components/UpdateBasicDetailForm.tsx:45-98 | for every profile, each slot the submit check leaves ("" when absent) is what an edit to that value stores, and the submit passes exactly when every live message is empty |
| UpdateBasicDetailForm.Form.constructor | src/components/UpdateBasicDetailForm.tsx:16-21 | every field starts empty and no error is recorded |
| UpdateBasicDetailForm.Form.Load | src/components/UpdateBasicDetailForm.tsx:31-36 | a fetched profile fills the form; a failed fetch leaves it; errors are untouched |
| UpdateBasicDetailForm.Form.HandleChange | src/components/UpdateBasicDetailForm.tsx:45-76 | the edit changes only that field and stores only that field's live message |
| UpdateBasicDetailForm.Form.ValidateForm | src/components/UpdateBasicDetailForm.tsx:79-99 | the error map is replaced by the submit check's, which records exactly the failing fields, and the check passes exactly when every field passes |
| UpdateBasicDetailForm.Form.HandleSubmit | src/components/UpdateBasicDetailForm.tsx:102-119 | the save is blocked exactly when some field fails; otherwise it is saved exactly when the server accepts |
| AddEmployeeForm.Set | src/components/AddEmployeeForm.tsx:91-95 | an edit sets the named field and keeps every other |
| AddEmployeeForm.LooseEmailNotBlank | src/components/AddEmployeeForm.tsx:109-113 | an address matching the loose pattern is never blank |
| AddEmployeeForm.SubmitVerdict | src/components/AddEmployeeForm.tsx:98-125 | the submit check passes exactly when both names are non-blank, the e-mail matches the loose pattern, and the contact number is ten digits (an empty one fails through the joining-date rule) |
| AddEmployeeForm.JoiningDateIgnored | src/components/AddEmployeeForm.tsx:119-121 | the joining date's value never changes the submit check, and an empty contact number puts the joining-date error in place |
| AddEmployeeForm.ShortFirstNameAccepted | src/components/AddEmployeeForm.tsx:64-66 | "Al" is a minimum-three error while typing but passes the submit check |
| AddEmployeeForm.EmailMessagesDiffer | src/components/AddEmployeeForm.tsx:73-75 | an invalid address is reported with one wording live and another on submit |
| AddEmployeeForm.DefaultChoice | src/components/AddEmployeeForm.tsx:45-50 | a drop-down's default is its first option, or "" for an empty list |
| AddEmployeeForm.Form.constructor | src/components/AddEmployeeForm.tsx:16-25 | the form starts empty with no errors and no options |
| AddEmployeeForm.Form.LoadEnums | src/components/AddEmployeeForm.tsx:36-57 | a reply's lists are stored and department, position and status default to each list's first option; a failed fetch changes nothing |
| AddEmployeeForm.Form.HandleChange | src/components/AddEmployeeForm.tsx:60-95 | the edit changes only that field and stores only that field's live message ("" when it passes) |
| AddEmployeeForm.Form.ValidateForm | src/components/AddEmployeeForm.tsx:98-125 | the error map is replaced by the submit check's, and the check passes exactly when it is empty |
| AddEmployeeForm.Form.HandleSubmit | src/components/AddEmployeeForm.tsx:128-144 | the save is blocked exactly when the submit check fails; otherwise it is saved exactly when the server accepts |
| UpdateEmployeeForm.FieldsListed | src/components/UpdateEmployeeForm.tsx:12-21 | the field list names every field |
| UpdateEmployeeForm.JoiningDateNeverChecked | src/components/UpdateEmployeeForm.tsx:99-100 | the joining date never gets an error |
| UpdateEmployeeForm.ContactRule | src/components/UpdateEmployeeForm.tsx:94-97 | an empty contact passes; a non-empty one passes exactly when its trim is 10 to 15 digits, so an all-space one fails |
| UpdateEmployeeForm.EmailRule | src/components/UpdateEmployeeForm.tsx:86-92 | the e-mail passes exactly when its trim matches the strict address pattern |
| UpdateEmployeeForm.Form.constructor | src/components/UpdateEmployeeForm.tsx:12-21 | every field starts empty, with no errors and no options |
| UpdateEmployeeForm.Form.Load | src/components/UpdateEmployeeForm.tsx:30-61 | the option lists are stored when fetched, and the record fills the form only when both fetches succeed; errors are untouched |
| UpdateEmployeeForm.Form.HandleChange | src/components/UpdateEmployeeForm.tsx:64-71 | the edit overwrites only the named field and sets only its error slot |
| UpdateEmployeeForm.Form.ValidateForm | src/components/UpdateEmployeeForm.tsx:107-117 | the new map copies every slot from the pre-submit map, and the check passes exactly when every old slot was empty |
| UpdateEmployeeForm.Form.HandleSubmit | src/components/UpdateEmployeeForm.tsx:120-144 | the save is blocked exactly when some pre-submit slot held an error; otherwise it is saved exactly when the server accepts |
| UpdateEmployeeForm.LoadedRecordIsNotChecked | src/components/UpdateEmployeeForm.tsx:30-144 | a loaded record with an empty first name and a malformed address is saved unchanged although the first name fails its rule |
| ApplyLeaveForm.ToBeforeFromIsEarlierDay | src/components/ApplyLeaveForm.tsx:45-49 | for date-input values, the to-date error is raised exactly when the to date is an earlier day |
| ApplyLeaveForm.SubmitMatchesLive | src/components/ApplyLeaveForm.tsx:38-77 | the leave type is never checked, and each other field's submit entry is the live message for the current values |
| ApplyLeaveForm.SubmitVerdict | src/components/ApplyLeaveForm.tsx:61-77 | the submit check passes exactly when both dates are set, the to date is not before the from date, and the description is non-blank and at least five UTF-16 code units long; equal dates pass |
| ApplyLeaveForm.Form.constructor | src/components/ApplyLeaveForm.tsx:11-16 | the form starts with the placeholder type and empty dates and description |
| ApplyLeaveForm.Form.LoadLeaveTypes | src/components/ApplyLeaveForm.tsx:108-118 | the fetched types are stored, a reply without a list gives the empty list, and a failed fetch keeps the old ones |
| ApplyLeaveForm.Form.HandleChange | src/components/ApplyLeaveForm.tsx:21-58 | the edit changes only that field and records its live message against the from date held before the edit |
| ApplyLeaveForm.Form.ValidateForm | src/components/ApplyLeaveForm.tsx:61-77 | the error map is replaced by the submit check's, and the check passes exactly when it is empty |
| ApplyLeaveForm.Form.HandleSubmit | src/components/ApplyLeaveForm.tsx:80-105 | the request is blocked exactly when the submit check fails; a saved request resets the form to its initial values, any other outcome keeps them |
| ApplyLeaveForm.StaleToDateError | src/components/ApplyLeaveForm.tsx:42-57 | a to-date error raised while typing stays shown after the from date is moved back, yet the submit is saved |
| EditLeave.SaveVerdict | src/pages/EditLeave.tsx:48-60 | the check passes exactly when a type is chosen, both dates are set with the to date not before the from date, and a status is chosen; each field's error is present exactly when its own test fails |
| EditLeave.LoadedDatesOrder | src/pages/EditLeave.tsx:34-35 | for loaded timestamps, the to-date error is raised exactly when the to day is before the from day |
| EditLeave.Page.constructor | src/pages/EditLeave.tsx:13-19 | the page starts loading with no type, empty dates and status, and no errors |
| EditLeave.Page.Load | src/pages/EditLeave.tsx:24-45 | the types are stored when fetched; a fetched leave fills the fields with the dates cut at 'T'; loading ends |
| EditLeave.Page.ChooseLeaveType | src/pages/EditLeave.tsx:101 | the type select stores the option's number, 0 for the placeholder, and a type counts as chosen exactly for a non-zero option |
| EditLeave.Page.ChooseStatus | src/pages/EditLeave.tsx:21 | the status select offers only "", Pending, Approved and Rejected, and changes only the status |
| EditLeave.Page.SetDates | src/pages/EditLeave.tsx:119-130 | the date inputs change only the dates |
| EditLeave.Page.ValidateForm | src/pages/EditLeave.tsx:48-60 | the error map is replaced by the save check's, and the check passes exactly when it is empty |
| EditLeave.Page.HandleSave | src/pages/EditLeave.tsx:69-86 | an update is sent only when the check passes and an id is present; the outcome says which of invalid, nothing sent, updated or failed happened |
| EditLeave.SaveUntouched | src/pages/EditLeave.tsx:24-86 | opening a well-formed stored leave and saving it untouched sends the update |
| AddLeaveTypesForm.LiveRule | src/components/AddLeaveTypesForm.tsx:25-41 | a value passes exactly when it is non-blank and its untrimmed length in UTF-16 code units reaches 3 (type) or 5 (description) |
| AddLeaveTypesForm.SubmitMatchesLive | src/components/AddLeaveTypesForm.tsx:53-65 | the submit check reports a field exactly when its live check would, with the same message, and passes exactly when both live checks pass |
| AddLeaveTypesForm.Form.constructor | src/components/AddLeaveTypesForm.tsx:11-14 | the form starts empty with no errors |
| AddLeaveTypesForm.Form.HandleChange | src/components/AddLeaveTypesForm.tsx:44-50 | the edit changes only that field and its error slot |
| AddLeaveTypesForm.Form.ValidateForm | src/components/AddLeaveTypesForm.tsx:53-65 | the error map is replaced by the submit check's, and the check passes exactly when it is empty |
| AddLeaveTypesForm.Form.HandleSubmit | src/components/AddLeaveTypesForm.tsx:68-85 | the save is blocked exactly when the submit check fails; otherwise it is saved exactly when the server accepts |
| UpdateLeaveTypesForm.FieldsListed | src/components/UpdateLeaveTypesForm.tsx:64-75 | the field list names every field |
| UpdateLeaveTypesForm.TrimmedRule | src/components/UpdateLeaveTypesForm.tsx:42-61 | a value passes exactly when its trimmed length in UTF-16 code units reaches 3 (type) or 5 (description), and is "required" exactly when blank |
| UpdateLeaveTypesForm.PaddedNameDiffers | src/components/UpdateLeaveTypesForm.tsx:46-49 | two non-space characters and a space always pass the add form's untrimmed rule, and fail this form's trimmed rule exactly when both are single code units |
| UpdateLeaveTypesForm.Form.constructor | src/components/UpdateLeaveTypesForm.tsx:18-31 | the form starts empty with no errors |
| UpdateLeaveTypesForm.Form.Load | src/components/UpdateLeaveTypesForm.tsx:18-31 | a fetched record fills the form; a failed fetch leaves it; errors are untouched |
| UpdateLeaveTypesForm.Form.HandleChange | src/components/UpdateLeaveTypesForm.tsx:34-61 | the edit changes only that field and its error slot |
| UpdateLeaveTypesForm.Form.ValidateForm | src/components/UpdateLeaveTypesForm.tsx:64-75 | the new map copies every slot from the pre-submit map, and the check passes exactly when every old slot was empty |
| UpdateLeaveTypesForm.Form.HandleSubmit | src/components/UpdateLeaveTypesForm.tsx:78-95 | the save is blocked exactly when some pre-submit slot held an error; otherwise it is saved exactly when the server accepts |
| UpdateLeaveTypesForm.BlankRecordIsSaved | src/components/UpdateLeaveTypesForm.tsx:18-95 | a loaded record with a blank name and description is saved, because loading never checks |
| UpdateLeaveTypesForm.BlankEditBlocks | src/components/UpdateLeaveTypesForm.tsx:34-95 | a blank edit leaves its error in the slot and the next submit is blocked |
| ChangePassword.PasswordPolicy | src/pages/ChangePassword.tsx:19-28 | a password passes exactly when it is at least six UTF-16 code units long, has a digit and one of `!@#$%^&*`, and the first failing rule's message is the one shown |
| ChangePassword.SurrogatePairCountsTwice | src/pages/ChangePassword.tsx:19-28 | "ab1!" followed by a character outside the Basic Multilingual Plane is long enough and accepted |
| ChangePassword.ConfirmRule | src/pages/ChangePassword.tsx:29-32 | a confirmation passes exactly when it repeats a non-empty new password |
| ChangePassword.RequestFor | src/pages/ChangePassword.tsx:55-59 | the body carries both passwords, and the e-mail exactly when the query string holds a non-empty one |
| ChangePassword.Page.constructor | src/pages/ChangePassword.tsx:8-13 | the page keeps the query's address and starts with empty fields and no errors |
| ChangePassword.Page.EditNewPassword | src/pages/ChangePassword.tsx:86-89 | the edit re-checks only the new password, leaving the confirmation's slot as it was; it reports whether the value passes |
| ChangePassword.Page.EditConfirmPassword | src/pages/ChangePassword.tsx:101-104 | the edit checks the confirmation against the new password held at the time; it reports whether it passes |
| ChangePassword.Page.ValidateForm | src/pages/ChangePassword.tsx:40-44 | both fields are re-checked and the check passes exactly when the policy holds (length in UTF-16 code units) and the confirmation equals the new password |
| ChangePassword.Page.HandleSubmit | src/pages/ChangePassword.tsx:46-70 | nothing is sent unless the check passes; a saved change removes token and user, after which the guard redirects to /Login |
| ChangePassword.StaleConfirmation | src/pages/ChangePassword.tsx:29-44 | changing the new password after a matching confirmation leaves no confirmation error shown, yet the submit is blocked |
| ProcessPayrollForm.Form.constructor | src/components/ProcessPayrollForm.tsx:9-11 | the form starts with no employees and empty selections |
| ProcessPayrollForm.Form.LoadEmployees | src/components/ProcessPayrollForm.tsx:13-24 | a reply's list (or [] when it has none) replaces the employees; a failure keeps them |
| ProcessPayrollForm.Form.Choose | src/components/ProcessPayrollForm.tsx:67-89 | the selects set the employee and month only |
| ProcessPayrollForm.Form.HandleSubmit | src/components/ProcessPayrollForm.tsx:26-46 | the request is sent exactly when both selections are non-empty; success resets both to "", a failure keeps them |
| ProcessPayrollForm.SubmitTwice | src/components/ProcessPayrollForm.tsx:26-46 | a processed payroll leaves both selections empty, so a later submit of the same form would send nothing |
| SearchFilter.SearchActiveIffTrimmed | src/components/EmployeeList.tsx:70 | the search is active exactly when its trim is non-empty |
| SearchFilter.LowerIdempotent | src/components/EmployeeList.tsx:71-76 | lowering twice is lowering once |
| SearchFilter.SearchIgnoresCase | src/components/EmployeeList.tsx:71-76 | matching is the same for the lowered search and for lowered fields |
| SearchFilter.MissingCharMisses | src/components/EmployeeList.tsx:74-76 | a needle holding a character the text lacks is not included |
| SearchFilter.LowerKeepsSpaces | src/components/EmployeeList.tsx:71 | lowering neither adds nor removes spaces |
| SearchFilter.PaddedSearchMisses | src/components/EmployeeList.tsx:70-78 | an active search holding a space matches no employee whose names and address hold none, because it is not trimmed |
| EmployeeList.ApplyFilters | src/components/EmployeeList.tsx:57-81 | the department, status and search steps together keep exactly the employees passing every active filter, in order |
| EmployeeList.FilteredList | src/components/EmployeeList.tsx:57-81 | the list is an order-preserving subsequence of the employees, and an employee is listed exactly when it passes every active filter |
| EmployeeList.NoFilterKeepsAll | src/components/EmployeeList.tsx:60-70 | both sentinels and a blank search list every employee |
| EmployeeList.DeleteRemovesExactly | src/components/EmployeeList.tsx:101 | removal keeps exactly the employees with another id, in order, and changes nothing when no employee has that id |
| EmployeeList.Page.constructor | src/components/EmployeeList.tsx:13-26 | the page starts loading with both sentinels, an empty search and a pager on page 1 with limit 5 |
| EmployeeList.Page.Refilter | src/components/EmployeeList.tsx:57-81 | the filter effect re-establishes that the shown list is the filtered employees |
| EmployeeList.Page.Load | src/components/EmployeeList.tsx:30-54 | a reply fills the employees, the total and the option lists behind their sentinels; a failure keeps them; loading ends and the shown list is refiltered |
| EmployeeList.Page.SetSearch | src/components/EmployeeList.tsx:70-81 | a new search refilters the shown list and changes nothing else |
| EmployeeList.Page.SelectDepartment | src/components/EmployeeList.tsx:60-64 | a new department refilters the shown list and changes nothing else |
| EmployeeList.Page.SelectStatus | src/components/EmployeeList.tsx:66-68 | a new status refilters the shown list and changes nothing else |
| EmployeeList.Page.DeleteEmployee | src/components/EmployeeList.tsx:94-106 | a request is made exactly when confirmed; only a confirmed, successful delete removes the employees with that id |
| EmployeeList.DeleteShownEmployee | src/components/EmployeeList.tsx:94-106 | a successful delete removes exactly that id from the shown list as well |
| SalaryDetail.ApplyFilters | src/components/SalaryDetail.tsx:51-71 | the department then search steps keep exactly the payrolls passing both active filters, in order |
| SalaryDetail.FilteredList | src/components/SalaryDetail.tsx:51-71 | the list is an order-preserving subsequence of the payrolls, and a payroll is listed exactly when it passes both active filters |
| SalaryDetail.Page.constructor | src/components/SalaryDetail.tsx:12-21 | the page starts loading with the sentinel department, an empty search and a pager on page 1 |
| SalaryDetail.Page.Refilter | src/components/SalaryDetail.tsx:51-71 | the filter effect re-establishes that the shown list is the filtered payrolls |
| SalaryDetail.Page.Load | src/components/SalaryDetail.tsx:24-48 | a reply fills the payrolls, the total and the departments behind their sentinel; a failure keeps them |
| SalaryDetail.Page.SetSearch | src/components/SalaryDetail.tsx:60-71 | a new search refilters the shown list and changes nothing else |
| SalaryDetail.Page.SelectDepartment | src/components/SalaryDetail.tsx:54-58 | a new department refilters the shown list and changes nothing else |
| SalaryDetail.NarrowBySearchThenDepartment | src/components/SalaryDetail.tsx:51-71 | choosing a department after a search only narrows the list: the result is a subsequence of the searched list, in the chosen department |
| ManageLeaves.TotalOrOne | src/components/ManageLeaves.tsx:21 | a missing or zero total counts as one page, any other total is kept |
| ManageLeaves.StatusClass | src/components/ManageLeaves.tsx:86-92 | Approved is success, Rejected is danger, and any other status is muted |
| ManageLeaves.FormatDate | src/components/ManageLeaves.tsx:32-36 | an empty date gives "", any other the date part of its ISO text |
| ManageLeaves.RowNumbers | src/components/ManageLeaves.tsx:77 | one serial number per row |
| ManageLeaves.RowNumbersContinue | src/components/ManageLeaves.tsx:77 | a full page is numbered from (page-1)*limit+1, one apart, and the next page continues from it |
| ManageLeaves.Page.constructor | src/components/ManageLeaves.tsx:8-13 | the page starts loading on page 1 of 1 with limit 5 and no leaves |
| ManageLeaves.Page.Load | src/components/ManageLeaves.tsx:16-29 | a reply's leaves (or []) and total (or 1) are stored; a failure keeps them; loading ends |
| ManageLeaves.EmptyReplyDisablesPager | src/components/ManageLeaves.tsx:20-21 | an empty reply on page 1 leaves a single page, so both pager buttons are disabled |
| ManageLeaveTypes.RowNumber | src/components/ManageLeaveTypes.tsx:66-68 | the row number index+1 is the first page's serial for any limit |
| ManageLeaveTypes.DeleteRemovesExactly | src/components/ManageLeaveTypes.tsx:43 | removal keeps exactly the leave types with another id, in order, and changes nothing when none has that id |
| ManageLeaveTypes.Page.constructor | src/components/ManageLeaveTypes.tsx:11-12 | the page starts loading with no leave types |
| ManageLeaveTypes.Page.Load | src/components/ManageLeaveTypes.tsx:15-28 | the fetched list is stored and a failure keeps the old one; loading ends either way |
| ManageLeaveTypes.Page.DeleteLeaveType | src/components/ManageLeaveTypes.tsx:36-49 | a declined confirm sends nothing and changes nothing; a failed delete changes nothing; a successful one removes that id |
| ManageLeaveTypes.DeleteTwice | src/components/ManageLeaveTypes.tsx:36-49 | deleting the same id twice is deleting it once, and no leave type with that id remains |

## Left out

- HTTP calls in `src/services/*.ts` are not modelled. A fetch is an `Option` parameter and a save is a `serverOk` flag. The per-endpoint unwrapping of `response.data` is not part of this model.
- Concurrent fetches with `Promise.all` and stale-response races are left out. A page's two fetches are one `Option` that fails as a whole.
- Toasts, `navigate`, `console.*` and `window.confirm` are outcome values or boolean parameters.
- The salary-slip download (blob, anchor, object URL) is browser I/O and is left out.
- Rendering-only files and page wrappers are left out: the detail and history views, cards, header, layout, routes and `types.ts`. The `required` attribute of the browser's inputs is left out with them.
- Date parsing is not modelled beyond "yyyy-mm-dd" texts. `new Date`, time zones and the rollover of impossible days are left out.
- UpdatePersonalDetailForm.Form.HandleChange: the current date is a day-number parameter, since the clock is I/O.
- ManageLeaves.FormatDate: the `toISOString` text of the date is a parameter. The model states only the empty case and the date-part shape. The RangeError `toISOString` throws while rendering an unreadable date (src/components/ManageLeaves.tsx:34-35) is left out.
- UpdateEmployeeForm.Form.HandleSubmit: the conversion of the joining date to an ISO timestamp before sending is not modelled (an unreadable date is sent as null).
- UpdateEmployeeForm.Form.Load: the joining date arrives already cut to "yyyy-mm-dd". When the stored date is unreadable, `toISOString` throws after the option lists are stored, so the form stays unfilled; the model gives that case as `employee == None`.
- UpdateEducationDetailForm.CgpaRule: a CGPA is an already-parsed real. `Number()` turning non-numeric input into NaN, which then passes the range check, is left out.
- JsText.Lower: only ASCII letters are lowered. Unicode case mapping is left out.
- JsText.LexLessTotal: strings are compared by code point. This agrees with JavaScript's UTF-16 order inside the Basic Multilingual Plane only. (Lengths, in contrast, are counted in UTF-16 code units by `JsText.Length`, as JavaScript does.)
- UserJson.ParseStringify: the parser reads only the exact layout `JSON.stringify` writes for the stored user record. It is not a general JSON parser, and the exception `JSON.parse` raises on other text is modelled as `None`. In Sidebar this matches the source's `try`; in Dashboard (src/pages/Dashboard.tsx:22) the parse is not guarded, so unreadable stored text throws out of the effect, which `Dashboard.DashboardPage.LoadEffect` does not capture.
- Api.Decimal: a numeric id is an integer. Rendering fractional or exponent numbers is left out.
- SalaryDetail.FilteredList: every payroll is assumed to have an employee record, as its type says. A payroll without one would raise an exception in the source and is not modelled.
