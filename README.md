# Onboarding core of skillSwap, modelled in Dafny

This project models the onboarding core of the skillSwap web application.
It has three parts.

- **The required-field validator** (`validateCompleteForm`). It runs four presence checks in a fixed order: name, occupation, timezone, age. No check stops the others. Each failed check appends one `{field, message}` error.
- **The onboarding endpoint** (`POST` and `GET` on `/api/onboard`). POST refuses a submission for one of six reasons, checked in this order:
  1. no identity, that is an absent or empty user id (401);
  2. validation errors (400 `VALIDATION_ERROR`);
  3. no record for the caller (404 `USER_NOT_FOUND`);
  4. the caller is already onboarded (400 `ALREADY_ONBOARDED`);
  5. the username is taken (400 `USERNAME_TAKEN`);
  6. the wallet is held by another user (400 `WALLET_ALREADY_CONNECTED`).

  Otherwise POST reshapes the body into the stored record and updates the caller's row once, with `hasOnboarded` set to true. GET reports whether the caller has a record and whether that record is onboarded.
- **The "skills to teach" wizard step.** It keeps the list of offered skills free of duplicates. A skill is appended only if it is absent. Removing a skill filters it out. Typed-in input is trimmed, blank input is refused, and the input box is cleared after an add. The user may continue only when the list is non-empty.

Modules, one per source file or shared concept:

- `Wrappers` (`wrappers.dfy`): `Option`.
- `Text` (`text.dfy`): JavaScript truthiness of an optional string, and `trim`. Trim strips a fixed set of whitespace characters (space, tab, LF, CR, VT, FF) from both ends.
- `Payload` (`payload.dfy`): the JSON body the wizard posts. Each field is an `Option`, and `None` means the field is absent.
- `Validation` (`validation.dfy`): `lib/validation.ts`. `ValidateCompleteForm` is a method that builds the error list by successive appends. It is proved equal to the reference definition `ExpectedErrors`: the failing fields, filtered from the check order, each mapped to its error.
- `OnboardRoute` (`onboard_route.dfy`): `app/api/onboard/route.ts`.
  - The users table is a `map` from `clerkId` to `User`, held in the field of class `UserStore`.
  - `Post` is the early-return handler. It modifies the map and is proved against two pure functions: `SubmitOutcome` (the response) and `StoreAfter` (the new table).
  - `Get` only reads the table and is proved equal to `StatusReport`.
  - The reshaping of the body (`updateData`) is the pure function `Reshape`, built from small functions, one per rule.
- `SkillsToTeach` (`skills_step.dfy`): `app/onboard/skills-to-teach-step.tsx`.
  - Class `SkillsStep` holds `skillsOffered` and `manualSkill`, and has one method per handler.
  - The new lists are computed by the pure functions `WithSkill` (spread-append) and `WithoutSkill` (filter).

Behaviour kept as the code has it:

- **No trimming in the required checks.** The validator tests truthiness and does not trim, so a name of three spaces passes (`BlankNameAccepted`).
- **Age.** Age 0 and every age below 13 fail the age check.
- **Username check.** It runs only for a truthy username that differs from the caller's stored one. So the empty username is never checked: the check lets a second empty username through (`EmptyUsernameDuplicated`). Only a unique index on the username column, outside this model, would stop that write.
- **Wallet check.** It compares the wallet address as sent, but the stored address is the trimmed one. So `" 0xabc"` gets past a record that already holds `"0xabc"`, and the address is stored twice unless the wallet column has a unique index (`PaddedWalletDuplicated`).
- **Uniqueness.** `UsernamesStayUnique` and `WalletsStayUnique` state the conditions under which the checks do keep usernames and wallet addresses unique.
- **Absent update values.** An update value that is absent leaves its column as it is. That is what an `undefined` value does in the update call. It matters for `username`, which the body may omit (`Assigned`).
- **Duplicate typed skill.** `addManualSkill` clears the input box even when the typed skill was already listed.

Identity resolution (`auth()`) is an `Option<string>` parameter. The database is the in-memory map.

## Model

| member | source | states |
|---|---|---|
| `Text.Trim` | app/api/onboard/route.ts:100-110 | the result is the middle of the input; everything cut off is whitespace; the result neither starts nor ends with whitespace; it is empty exactly when the input is blank |
| `Text.TrimOfTrimmed` | app/onboard/skills-to-teach-step.tsx:53 | a string with no whitespace at either end is its own trim |
| `Text.TrimIdempotent` | app/onboard/skills-to-teach-step.tsx:53 | trimming twice equals trimming once |
| `Validation.MissingFields` | lib/validation.ts:10-24 | the failing checks among the given fields: a field is in the result exactly when it is checked and its check fails; never longer than the input |
| `Validation.ValidateCompleteForm` | lib/validation.ts:6-27 | the appended list equals the reference list (one error per failing field, in check order) and has at most four entries; the input is a value and is not changed |
| `Validation.ErrorsInCheckOrder` | lib/validation.ts:7-26 | at most four errors; field names strictly in the order name, occupation, timezone, age; no field reported twice |
| `Validation.FieldReported` | lib/validation.ts:10-24 | a field's error, with that field's message, is in the list exactly when that field's check fails (missing or empty text; absent, zero or under-13 age) |
| `Validation.AgeReported` | lib/validation.ts:22-24 | the age error is present exactly when the age is absent or below 13 (0 included); an age of 13 or more gives none |
| `Validation.NoErrorsIff` | lib/validation.ts:10-26 | the list is empty exactly when name, occupation and timezone are non-empty and age is at least 13 |
| `Validation.FieldIndependent` | lib/validation.ts:10-24 | whether a field is reported depends only on that field's value |
| `Validation.UnderageExample` | lib/validation.ts:22-24 | name Ada, occupation Student, timezone UTC+00:00, age 10 gives exactly the age error |
| `Validation.BlankNameAccepted` | lib/validation.ts:10 | a whitespace-only name passes the name check (no trimming) |
| `OnboardRoute.Assigned` | app/api/onboard/route.ts:94-97 | an absent update value keeps the current column; a present one replaces it |
| `OnboardRoute.TrimmedOr` | app/api/onboard/route.ts:100-110 | the trimmed text when the field holds something besides whitespace, otherwise the fallback; a value other than the fallback is non-empty and has no whitespace at either end |
| `OnboardRoute.TrimmedOrIdempotent` | app/api/onboard/route.ts:100-110 | a stored optional text, stored again, is unchanged |
| `OnboardRoute.Compact` | app/api/onboard/route.ts:113-134 | `filter(Boolean)`: no empty string remains; a string is kept exactly when it was there and is non-empty; a list with no empty string is unchanged |
| `OnboardRoute.CompactAppend` | app/api/onboard/route.ts:114 | compacting keeps order: compacting a concatenation compacts each part |
| `OnboardRoute.EntryText` | app/api/onboard/route.ts:121 | a string entry is itself; an object entry is its truthy name, otherwise "[object Object]" |
| `OnboardRoute.EntryTexts` | app/api/onboard/route.ts:119-128 | same length as the entry list, with each entry reduced to text |
| `OnboardRoute.StringList` | app/api/onboard/route.ts:113-118 | a non-array is `[]`; an array keeps exactly its non-empty strings; an array without empty strings is kept as it is, order and repeats included |
| `OnboardRoute.SkillList` | app/api/onboard/route.ts:119-128 | a non-array is `[]`; an array keeps exactly the non-empty texts of its entries; when no text is empty the texts are kept as they are, order and repeats included |
| `OnboardRoute.SkillListExample` | app/api/onboard/route.ts:119-123 | `[{name:"Chess"}, "Guitar", ""]` is stored as `["Chess", "Guitar"]` |
| `OnboardRoute.StoredLinks` | app/api/onboard/route.ts:137-140 | socialLinks is kept, unchanged, exactly when it is an object (map or array), else null |
| `OnboardRoute.SubmittedName` | app/api/onboard/route.ts:93 | the name when truthy, else the display name |
| `OnboardRoute.Reshape` | app/api/onboard/route.ts:91-144 | the updated record, field by field, each field given by the function that carries its rule (`SubmittedName`, `Assigned`, `TrimmedOr`, `StringList`, `SkillList`, `StoredLinks`), whose own contracts state the rules: the same clerkId; `hasOnboarded` true; name as `SubmittedName`; username, occupation and timezone as sent, or unchanged when absent; age as sent (an absent age never gets here, because validation requires one); bio, location and wallet trimmed or null; avatar trimmed or the existing one; arrays compacted; socialLinks kept only as an object |
| `OnboardRoute.ValidatedFieldsStored` | app/api/onboard/route.ts:93-97 | once validation has passed, the stored name, occupation, timezone and age are the submitted ones, and the age is at least 13 |
| `OnboardRoute.StatusReport` | app/api/onboard/route.ts:178-206 | unauthorized exactly when the identity is absent or empty; `{false, false, null}` when there is no record; otherwise exists, with onboarded equal to the record's flag, and the record |
| `OnboardRoute.UserStore.FindByUsername` | app/api/onboard/route.ts:58-60 | finds a record exactly when some record holds the username, and returns such a record |
| `OnboardRoute.UserStore.FindWalletElsewhere` | app/api/onboard/route.ts:72-77 | finds a record exactly when a record with another clerkId holds the address, and returns such a record: one stored under a clerkId other than the caller's and holding the address (in a valid table its own clerkId is not the caller's) |
| `OnboardRoute.SubmitOutcome` | app/api/onboard/route.ts:6-162 | 401 exactly when the identity is absent or empty; a validation refusal carries exactly the expected error list, which is non-empty; success only for an existing caller that is not yet onboarded, returning the reshaped record |
| `OnboardRoute.StoreAfter` | app/api/onboard/route.ts:143-152 | the table is unchanged unless the outcome is a success; the set of clerkIds never changes; every record other than the caller's is untouched |
| `OnboardRoute.UserStore.Post` | app/api/onboard/route.ts:6-162 | responds with `SubmitOutcome`, leaves the table as `StoreAfter` gives it, writes nothing on any refusal, and keeps every record under its own clerkId |
| `OnboardRoute.UserStore.Get` | app/api/onboard/route.ts:173-206 | responds with `StatusReport` of the current table; modifies nothing |
| `OnboardRoute.NoIdentityUnauthorized` | app/api/onboard/route.ts:11-13 | with an absent or empty identity the response is 401 whatever the table holds, the table is unchanged, and GET is unauthorized too |
| `OnboardRoute.InvalidBodyRejected` | app/api/onboard/route.ts:19-29 | from a non-empty identity, a body with validation errors gets 400 `VALIDATION_ERROR` carrying exactly that list, whatever the table holds, and the table is unchanged |
| `OnboardRoute.RefusalWritesNothing` | app/api/onboard/route.ts:11-88 | every refusal leaves the table unchanged and has a status other than 200 |
| `OnboardRoute.MissingOrOnboardedRejected` | app/api/onboard/route.ts:36-54 | from a non-empty identity, a valid body from a caller without a record gets 404 `USER_NOT_FOUND`; from an onboarded caller, `ALREADY_ONBOARDED` |
| `OnboardRoute.ResubmissionRefused` | app/api/onboard/route.ts:46-54 | after a success, any later submission by the same caller is refused (already onboarded, or invalid) and writes nothing |
| `OnboardRoute.UsernameTakenIff` | app/api/onboard/route.ts:57-68 | past the earlier checks, `USERNAME_TAKEN` exactly for a non-empty username that differs from the caller's and is held by some record |
| `OnboardRoute.OwnUsernameNeverTaken` | app/api/onboard/route.ts:57 | resubmitting one's own current username never gives `USERNAME_TAKEN` |
| `OnboardRoute.WalletTakenIff` | app/api/onboard/route.ts:71-88 | past the username check, `WALLET_ALREADY_CONNECTED` exactly for a non-empty address, as sent, that a record with another clerkId holds |
| `OnboardRoute.OwnWalletNeverConflict` | app/api/onboard/route.ts:73-76 | when wallet addresses are unique, resubmitting the caller's own stored address (or none, when none is stored) never gives `WALLET_ALREADY_CONNECTED` |
| `OnboardRoute.SuccessIff` | app/api/onboard/route.ts:11-152 | POST succeeds exactly when a non-empty identity is given, the body is complete, the caller has a record that is not yet onboarded, and neither the username nor the wallet conflicts |
| `OnboardRoute.AcceptedWithoutConflict` | app/api/onboard/route.ts:90-162 | a valid body from a caller that is not yet onboarded, with neither conflict, is accepted, and only the caller's row is replaced by the reshaped record |
| `OnboardRoute.SuccessChangesOnlyCaller` | app/api/onboard/route.ts:143-152 | on success the caller's record becomes the reshaped, onboarded record that is returned; the caller was not onboarded before; the set of clerkIds and every other record are unchanged |
| `OnboardRoute.StatusAfterSuccess` | app/api/onboard/route.ts:196-201 | after a successful POST, GET reports the caller as existing and onboarded, with the stored record |
| `OnboardRoute.UsernamesStayUnique` | app/api/onboard/route.ts:57-68 | when the submitted username is not the empty string, a successful POST keeps non-null usernames unique |
| `OnboardRoute.WalletsStayUnique` | app/api/onboard/route.ts:71-110 | when the submitted address is already trimmed, a successful POST keeps non-null wallet addresses unique |
| `OnboardRoute.EmptyUsernameDuplicated` | app/api/onboard/route.ts:57 | a property of the pre-check: the empty username skips it, so from a table with unique usernames POST is accepted and the modelled table then holds two records with username ""; only the database's unique index, outside this model, would stop that write |
| `OnboardRoute.PaddedWalletDuplicated` | app/api/onboard/route.ts:74 | the check runs on the untrimmed address: `" 0xabc"` is accepted beside a record with `"0xabc"`, and two records then hold `"0xabc"` unless the wallet column has a unique index |
| `SkillsToTeach.WithSkill` | app/onboard/skills-to-teach-step.tsx:41-49 | the skill is in the result; a listed skill leaves the list unchanged; an absent one is appended at the end, with length plus one and the earlier entries in order; no new duplicates |
| `SkillsToTeach.WithoutSkill` | app/onboard/skills-to-teach-step.tsx:63-67 | the skill no longer occurs; exactly the other skills remain, each as often as before |
| `SkillsToTeach.WithoutSkillAppend` | app/onboard/skills-to-teach-step.tsx:66 | filtering keeps order: filtering a concatenation filters each part |
| `SkillsToTeach.WithoutAbsentSkill` | app/onboard/skills-to-teach-step.tsx:66 | removing a skill that is not listed changes nothing |
| `SkillsToTeach.WithoutSkillIdempotent` | app/onboard/skills-to-teach-step.tsx:63-67 | removing twice equals removing once |
| `SkillsToTeach.WithoutSkillNoDuplicates` | app/onboard/skills-to-teach-step.tsx:63-67 | removing keeps a duplicate-free list duplicate-free |
| `SkillsToTeach.AddThenRemove` | app/onboard/skills-to-teach-step.tsx:40-67 | removing a skill just added to a list without it gives the list back |
| `SkillsToTeach.SkillsStep.constructor` | app/onboard/skills-to-teach-step.tsx:38 | the step opens on the wizard's list with an empty input box |
| `SkillsToTeach.SkillsStep.SetManualSkill` | app/onboard/skills-to-teach-step.tsx:129 | typing replaces the input box and leaves the list alone |
| `SkillsToTeach.SkillsStep.AddSkill` | app/onboard/skills-to-teach-step.tsx:40-50 | the new list is `WithSkill` of the old one; a listed skill gives the info toast; the input box is untouched; no duplicates are introduced |
| `SkillsToTeach.SkillsStep.AddManualSkill` | app/onboard/skills-to-teach-step.tsx:52-61 | non-blank input: the trimmed skill is added and the box is cleared (even for a listed skill); blank input: list and box unchanged, with an error toast |
| `SkillsToTeach.SkillsStep.RemoveSkill` | app/onboard/skills-to-teach-step.tsx:63-68 | the new list is `WithoutSkill` of the old one; the input box is untouched; no duplicates are introduced |
| `SkillsToTeach.SkillsStep.HandleNext` | app/onboard/skills-to-teach-step.tsx:70-76 | advances exactly when the list is non-empty; otherwise shows the error toast |

## Left out

- Identity resolution and the database (`auth()`, `currentUser()`, Prisma). Identity is an `Option<string>` parameter and the table is an in-memory map. `currentUser()` is called but its result is not used.
- OnboardRoute.EmptyUsernameDuplicated: states what the pre-check lets through, not what the database ends up holding; the unique index on the username column, which would turn the second write into the 500 response, is outside this model.
- OnboardRoute.Reshape: an absent age keeps the stored age, whereas `Number(undefined)` is `NaN` in the code; validation requires an age, so that case never reaches the reshaping.
- Database constraints. The database schema is not part of this model, so no uniqueness constraint is enforced at write time. A write that such a constraint would reject, and the generic 500 response (`catch`, route.ts:163-169 and 207-213), are not modelled.
- Concurrency: the race between the uniqueness checks and the update across concurrent requests.
- JSON `null` versus an absent field. Both are `None`. A present `null` for `username` would store NULL, whereas the model keeps the column as it is.
- `Number(body.age)` coercion. Age is an optional integer, so numeric strings, fractions and `NaN` are left out.
- Text fields holding non-strings. Calling `.trim()` on a number throws, and the request then ends in the 500 response.
- Array entries other than strings and `{name}` objects. A `null` skill entry throws, numbers and booleans are stringified, and so on. `String(s)` is modelled only for a plain object, as "[object Object]".
- Unicode whitespace in `trim`. Only the six ASCII whitespace characters listed above are stripped.
- Response bodies. The human-readable `error` and `message` strings are left out; responses are constructors with their HTTP status (`Status`) and `code` (`Code`).
- Database columns this code never writes (`id` and the rest). The `User` record holds only `clerkId`, the written columns and `hasOnboarded`.
- `console.log` calls and everything the UI draws. This includes the preset `coreSkills` list (any string can be added), framer-motion, and the buttons' styling. Toasts appear only as outcome tags.
- Stale state in React. A handler's closure sees the state as of the last render. The model runs each handler on the current state, one at a time.
- The categorical `ageGroup` variant of the validator. It does not appear in `lib/validation.ts`.
- The rest of the application: the wizard page and the dashboard and home pages (redirects and `fetch` calls), the development bypass, the video-token endpoint, the layout and the navbar.
