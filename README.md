# Pest-control backend: user store, manager delegation and pest registers

This project models the part of the pest-management backend that keeps accounts and who manages whom. It covers:

- the user table, with role flags and a unique email that `create_user` lowercases;
- the directed `managers` relation between users (`managed_by` is the same relation read backwards);
- the table of pest registers, each owned by a user and deleted with its owner;
- the creator-only manager endpoints (create, get, delete, list, search);
- `UserSerializer` (validation, `create`, `update`) and the claims the login token carries;
- the pest-register endpoint and `RegisterSerializer`.

State lives in one class, `Models.Store`. Its fields are a `users` map, a set of `(creator, manager)` edges, a `registers` map and the two id counters. `Store.Valid()` is the invariant every operation keeps:

- ids stay below the counters;
- every edge and every register owner refers to an existing user;
- no two users share an email.

Operations that write the database are methods with `modifies`. Their `ensures` give the whole new state in terms of the old one. Read-only endpoints are functions over the store. The requester is an explicit user id, the clock is an explicit `now` argument, and a password stands for its hash.

Files: `wrappers.dfy` (Option, Result), `text.dfy` (ASCII lowercasing, case-insensitive containment, whitespace stripping, decimal ids), `models.dfy`, `account_serializers.dfy`, `account_views.dfy`, `register_views.dfy`, `register_serializers.dfy`.

The model follows the code as written. Four points worth knowing:

- `create_manager` does not copy the creator's `company` to the new user.
- The list endpoint answers 404 when the creator has no managers, while the search endpoint answers 200 even when nothing matches.
- Deleting a manager deletes the user outright, and with it every edge touching that user and every register it owns.
- Emails are lowercased only by `create_user`. `update` writes a new email as validated: stripped of surrounding whitespace, like every string field of the serializer, but not lowercased. So `Valid()` requires unique emails, not lowercase ones.

## Model

| member | source | states |
|---|---|---|
| Text.Lower | app/core/models.py:60 | same length, each character lowercased, result holds no upper-case letter |
| Text.LowerIdempotent | app/core/models.py:60 | lowercasing twice equals lowercasing once |
| Text.LowerOfLowerString | app/core/models.py:60 | a string with no upper-case letter is unchanged by lowercasing |
| Text.ContainsSubIff | app/accounts/views.py:213 | the recursive substring test holds exactly when some position starts a copy of the pattern |
| Text.IContainsIff | app/accounts/views.py:213 | `icontains` holds exactly when some position of the name matches the query character by character, ignoring case |
| Text.IContainsEmpty | app/accounts/views.py:213 | every name contains the empty query |
| Text.IContainsIgnoresQueryCase | app/accounts/views.py:213 | the case of the query never changes the outcome |
| Text.NatToString | app/accounts/views.py:119 | an id prints as a non-empty string of decimal digits, without a leading zero, whose decimal value is the id |
| Text.NatToStringInjective | app/accounts/views.py:155 | two different ids never print the same, so the message names exactly one id |
| Text.Strip | app/accounts/serializers.py:15-18 | the stripped value is no longer than the input and neither starts nor ends with whitespace; it is `StripEnd` after `StripStart`, the `rstrip` and `lstrip` halves, each proved to remove only whitespace from its own end |
| Text.StripKeepsWindow | app/accounts/serializers.py:15-18 | the stripped value is a contiguous window of the input, and everything outside that window is whitespace |
| Text.StripEmptyIff | app/accounts/serializers.py:15-18 | a value strips to the empty string exactly when it is made only of whitespace |
| Text.StripIdempotent | app/accounts/serializers.py:15-18 | stripping twice equals stripping once |
| Models.NormalizeEmail | app/core/models.py:58-60 | the stored email has the input's length, agrees with it ignoring case, and holds no upper-case letter (the whole address, not only the domain) |
| Models.NormalizeEmailIdempotent | app/core/models.py:58-60 | normalizing twice equals normalizing once |
| Models.NormalizeEmailKeepsLowercase | app/core/models.py:58-60 | an already lowercase address is stored unchanged |
| Models.FullName | app/core/models.py:85-86 | the first name, one space, then the last name |
| Models.ShortName | app/core/models.py:88-89 | the first name |
| Models.UserStr | app/core/models.py:91-92 | a user's string form is its email |
| Models.RegisterStr | app/core/models.py:114-115 | the pest name followed by " (", the owner's full name and ")" |
| Models.NewUser | app/core/models.py:35-41 | the row carries the given fields; each flag takes its override when given, else its column default |
| Models.NewUserDefaults | app/core/models.py:76-78 | without extra fields a new user is not a creator, is active, is not staff, is not superuser |
| Models.SuperuserExtra | app/core/models.py:48-49 | `create_superuser` forwards `is_staff` and `is_superuser` as true and every other extra field unchanged |
| Models.Store.Emails | app/core/models.py:69 | exactly the emails of stored users |
| Models.Store.ManagersOf | app/core/models.py:75 | `m` is among `c`'s managers exactly when the edge `(c, m)` exists |
| Models.Store.ManagedBy | app/core/models.py:75 | `c` is among `m`'s `managed_by` exactly when the edge `(c, m)` exists |
| Models.Store.RegistersOf | app/core/models.py:110 | exactly the registers whose owner is `u` |
| Models.Store.CreateUser | app/core/models.py:30-44 | fails exactly on an empty email or a normalized email already in use, changing nothing; otherwise inserts one user under a fresh id, with the normalized email and no edges in either direction |
| Models.Store.CreateSuperuser | app/core/models.py:46-56 | fails when `is_staff` or `is_superuser` is given as false, or as `create_user` fails; otherwise the new user is staff and superuser, with no branch, and only the user counter advances |
| Models.Store.AssignManager | app/core/models.py:94-98 | adds the edge self→manager exactly when self is a creator; the manager's own managers are untouched |
| Models.Store.CreateManager | app/core/models.py:100-106 | a non-creator gets `None` and nothing changes; a creator gets `create_user`'s outcome with the branch and extra fields forwarded, a failure's cause is the empty email or the duplicate normalized email; on success the new user is in the creator's managers and the creator in its `managed_by`, and only the user counter advances |
| Models.Store.DeleteUser | app/core/models.py:110 | removes the user, every edge touching it, and exactly the registers it owns; other users' registers stay |
| Models.Store.CreateRegister | app/core/models.py:108-112 | inserts exactly one register under a fresh id and advances the register counter; the owner's register count grows by one and nobody else's changes |
| Models.Store.ClearManagers | app/accounts/serializers.py:48 | drops every edge leaving the user and keeps all other edges |
| Models.Store.SaveUser | app/accounts/serializers.py:41-45 | replaces one row; the email must not be another user's |
| AccountSerializers.Readable | app/accounts/serializers.py:17-18 | keeps exactly the fields that are not write-only |
| AccountSerializers.RenderedFieldsOmitPassword | app/accounts/serializers.py:17-18 | a rendered user carries the declared fields in declaration order, with only the write-only password left out |
| AccountSerializers.ReadableSkipsWriteOnly | app/accounts/serializers.py:17-18 | a write-only field between fields that are not write-only is dropped, and the rest keep their order |
| AccountSerializers.ReadableKeepsAll | app/accounts/serializers.py:17-18 | a list with no write-only field is rendered whole and in order |
| AccountSerializers.Serialize | app/accounts/serializers.py:15-17 | a rendered user copies the row's readable fields and lists its manager ids |
| AccountSerializers.StripField | app/accounts/serializers.py:15-18 | a string field that is present is replaced by its stripped value; an absent one stays absent |
| AccountSerializers.Cleaned | app/accounts/serializers.py:15-18 | every string field is stripped; images, flags and manager ids are kept as sent |
| AccountSerializers.FieldValidation | app/accounts/serializers.py:11-18 | on the stripped data, for each field exactly: on create, email, first_name, last_name and password fail when absent; every string field, company and branch included, fails when it is empty; the password fails when shorter than 5 characters; email fails when another user already has it; managers fails when an id names no user |
| AccountSerializers.MissingRequiredFieldsReported | app/accounts/serializers.py:15-18 | on create, each absent key among email, first_name, last_name (the columns of app/core/models.py:69-71) and password (the column `AbstractBaseUser` declares) is reported |
| AccountSerializers.WhitespaceValueRefused | app/accounts/serializers.py:15-18 | a value made only of whitespace, or empty, fails as blank whatever the field |
| AccountSerializers.ValidateAsWritten | app/accounts/serializers.py:20-24 | an anonymous requester fails (no `is_creator`); otherwise fails exactly for a non-creator that sends `managers`, and returns `attrs` unchanged |
| AccountSerializers.Validate | app/accounts/serializers.py:20-24 | fails exactly when `managers` is sent by an anonymous requester or a non-creator; otherwise returns `attrs` unchanged |
| AccountSerializers.ValidateAgreesWhenAuthenticated | app/accounts/serializers.py:20-24 | the two versions agree for every authenticated requester |
| AccountSerializers.AnonymousSignUpRefused | app/accounts/serializers.py:21-22 | an anonymous sign-up without managers fails as written and passes as corrected |
| AccountSerializers.IsValidAsWritten | app/accounts/serializers.py:18-24 | the data is stripped first and field errors are reported next; when no field failed, `validate` as written decides, so every anonymous request fails |
| AccountSerializers.IsValidVersionsAgreeWhenAuthenticated | app/accounts/serializers.py:20-24 | the pipeline as written and the corrected one give the same answer on every authenticated request |
| AccountSerializers.IsValid | app/accounts/serializers.py:18-24 | the corrected pipeline: the data is stripped first and field errors are reported next; when no field failed, the corrected `validate` decides (an anonymous requester counts as a non-creator); success returns the stripped data |
| AccountSerializers.ValidCreateData | app/accounts/serializers.py:26-29 | data that passes the corrected validation on create carries a non-empty email, non-empty names, a password of at least 5 characters and only existing manager ids, which covers what `create` and `create_user` require |
| AccountSerializers.NonCreatorCannotSendManagers | app/accounts/serializers.py:22-23 | a non-creator that sends `managers` always fails the corrected validation |
| AccountSerializers.ExtraOf | app/accounts/serializers.py:28-29 | `create` forwards company, image and the three flags to `create_user` |
| AccountSerializers.EdgesFrom | app/accounts/serializers.py:31-32 | exactly the edges from the user to a listed id |
| AccountSerializers.AssignManagers | app/accounts/serializers.py:31-32 | the loop over `managers_data` adds an edge to every listed id if the user is a creator, and none otherwise |
| AccountSerializers.Create | app/accounts/serializers.py:26-34 | the new user is `create_user`'s row from the remaining fields; its managers are the listed ids if it is a creator and empty otherwise; only the user counter advances; a failing `create_user` changes nothing |
| AccountSerializers.UpdatedUser | app/accounts/serializers.py:39-45 | each field sent overwrites the stored one (the email not lowercased); the password changes only when a non-empty one is sent |
| AccountSerializers.ReplaceManagers | app/accounts/serializers.py:47-50 | after the clear and the loop, the user's managers are exactly the listed ids for a creator and none otherwise; other users' managers are kept |
| AccountSerializers.Update | app/accounts/serializers.py:36-52 | without `managers` the edge set is unchanged; with it the user's managers become the listed ids for a creator and empty otherwise; other users' managers, the registers and both counters are unchanged |
| AccountSerializers.ImageName | app/accounts/serializers.py:70 | the image claim is the stored name, or empty when there is none |
| AccountSerializers.GetTokenAsWritten | app/accounts/serializers.py:62-74 | the `last_name` claim carries the first name |
| AccountSerializers.GetToken | app/accounts/serializers.py:62-74 | the `last_name` claim carries the last name |
| AccountSerializers.ClaimsAgreeWithUserView | app/accounts/serializers.py:64-72 | every claim equals the same field of the user's rendering (email, names, is_staff, branch, is_creator, image, id, manager ids) |
| AccountSerializers.LastNameClaimIsWrong | app/accounts/serializers.py:66 | as written, a user whose names differ gets a `last_name` claim other than their last name |
| AccountSerializers.TokenVersionsDifferOnlyInLastName | app/accounts/serializers.py:64-72 | the two versions issue the same claims apart from `last_name` |
| AccountSerializers.ManagersClaimIsEdgeSet | app/accounts/serializers.py:72 | the `managers` claim holds exactly the ids the user has an edge to |
| AccountViews.RequiredMessage | app/accounts/views.py:68 | the message names the missing key in quotes |
| AccountViews.Summary | app/accounts/views.py:89-95 | the summary echoes id, email, first_name, branch and last_name |
| AccountViews.FirstMissingField | app/accounts/views.py:63-70 | the index of the first required key (email, first_name, last_name, branch, password) absent from the request, or the list's length when all are present |
| AccountViews.AllPresentIff | app/accounts/views.py:65-70 | the loop runs to its end exactly when every required key is present |
| AccountViews.PostManager | app/accounts/views.py:53-98 | 403 for a non-creator; 400 naming the first missing key; 400 when creation fails, whose cause is the empty email or the duplicate normalized email; otherwise 201 echoing the new user, which is now the requester's manager, and only the user counter advances; only 201 changes the store |
| AccountViews.GetManager | app/accounts/views.py:100-133 | 403 for a non-creator; 200 exactly when `pk` is the requester's manager, with its summary; otherwise 404, even for an existing user |
| AccountViews.DeleteManager | app/accounts/views.py:135-162 | 403 or 404 leave the store unchanged; 200 removes the manager, its edges and its registers, keeps every other user and every other register unchanged, leaves both counters as they were, and, unless `pk` is the requester itself, a later get of `pk` answers 404 |
| AccountViews.DeleteAnswer | app/accounts/views.py:138-157 | a non-creator gets 403, a creator 404 for a `pk` that is not its manager and 200 otherwise |
| AccountViews.Render | app/accounts/views.py:184 | renders exactly the given ids |
| AccountViews.ListManagers | app/accounts/views.py:164-189 | 403 for a non-creator; 404 when the creator has no managers; otherwise 200 listing exactly the creator's managers |
| AccountViews.FilterManagers | app/accounts/views.py:212-214 | the filtered ids are always among the creator's managers; a manager is kept exactly when `NameMatches`, the `Q(first_name__icontains) \| Q(last_name__icontains)` test of line 213, holds for it |
| AccountViews.SearchManagers | app/accounts/views.py:191-220 | 403 for a non-creator; otherwise 200 (also when empty), with a subset of the creator's managers: all of them for an absent or empty query, else exactly those whose first or last name contains the query ignoring case |
| AccountViews.EmptyQueryShortcutAgreesWithFilter | app/accounts/views.py:204-214 | the empty-query shortcut returns what the name filter returns for the empty query |
| AccountViews.SearchMatchesIgnoringCase | app/accounts/views.py:212-214 | a manager matches a non-empty query exactly when its first or last name holds the query at some position, character by character ignoring case |
| AccountViews.SearchIgnoresQueryCase | app/accounts/views.py:212-214 | a query and its lowercase form give the same answer |
| AccountViews.EndpointsAgree | app/accounts/views.py:176-210 | get, list and search agree on who the creator's managers are |
| RegisterViews.PostRegister | app/registers/views.py:14-39 | a missing or empty `pest_name` is 400 and writes nothing; otherwise exactly one register is added, owned by the requester whatever owner the body names, and 201 echoes its id, pest name, owner's full name and creation time; other users' registers and the user counter are unchanged |
| RegisterSerializers.ImageFieldsSameNames | app/registers/serializers.py:19-20 | the image serializer's list is the parent's with `image` appended, naming the same fields |
| RegisterSerializers.WritableFields | app/registers/serializers.py:9-10 | of the five exposed fields only `pest_name` and `image` are writable |
| RegisterSerializers.ToInternal | app/registers/serializers.py:10 | validated data keeps only pest name and image |
| RegisterSerializers.ReadOnlyKeysDropped | app/registers/serializers.py:10 | client values for id, created and owner never change the validated data |
| RegisterSerializers.Save | app/registers/serializers.py:12-14 | the new row's owner is the requester and its id and time the server's, whatever the input says; only the register counter advances |
| RegisterSerializers.Represent | app/registers/serializers.py:5-10 | a rendered register copies id, pest name, created and image, and gives the owner as its email |

## Left out

- Lowercasing and `icontains` are modelled on ASCII letters only. Python's `str.lower` and some databases also fold other scripts.
- The order of listed managers and of the `managers` claim is the database's and is not specified. The model gives them as a map keyed by id and as a set.
- Password hashing, image storage and upload paths (`user_image_file_path`, `pest_image_file_path`) are external. A password is kept as the value given to `set_password`, and an image as its stored name.
- The token's signing and the standard claims `super().get_token` adds belong to the JWT library. Only the added claims are modelled.
- URL routing, `CreateUserView`, `LoginView`, `UserDetailView`, `UploadImageUserViewSet`, `UserImageSerializer` and `get_by_natural_key` are framework wiring and are not modelled.
- Some field checks that come from the framework are not modelled: the length limits (255 characters; 128 for the password), email format, the refusal of null characters in string fields, `null` or non-string JSON values, and `RegisterSerializer`'s own `pest_name` checks. The required, non-blank and stripping behaviour of the user fields is modelled.
- AccountSerializers.FieldValidation: an update is checked as a partial one (PATCH), so absent keys are never reported on update. A full PUT would also require email, names and password. No update view is part of this model.
- Whitespace stripping is modelled on ASCII whitespace only. Python's `str.strip` also removes other Unicode spaces.
- The `except Exception` arms of the get and delete endpoints (app/accounts/views.py:129-133, 158-162) cannot fire in the model, because nothing there raises.
- Request bodies are taken as JSON. Form-encoded bodies, where the framework reads an absent boolean as false and an absent `managers` as an empty list, are not modelled.
- Every endpoint takes its requester as an existing, authenticated and active account. The 401 answer `IsAuthenticated` gives an anonymous caller, and the refusal of inactive users by the token authentication, are not modelled.
- Transactions, concurrent requests and stale in-memory instances are not modelled. Each operation runs alone on the current state.
- Work requests, ratings, the technician role, a rate limit, time series and copying the creator's `company` have no code in the modelled files and are not modelled.
- AccountViews.PostManager: when creation fails, the 400 body keeps the prefix "An error ocurred: " and the exception's cause, not the exception's printed text. For a duplicate email that text is written by the database.
- AccountSerializers.IsValid: runs the corrected `validate` of the second finding, and `ValidCreateData` and `NonCreatorCannotSendManagers` are about this corrected pipeline. As written (`IsValidAsWritten`), every anonymous request whose fields pass ends in `NoCreatorAttribute`.
- AccountSerializers.ValidateAsWritten: the anonymous case ends in an AttributeError. The framework turns that into a 500 answer, which is not modelled.

## Findings

| source | as written | input that shows it | evidently intended | confidence | as-written member | corrected member |
|---|---|---|---|---|---|---|
| app/accounts/serializers.py:66 | the `last_name` claim is set from `user.first_name` | a user with first name "Ann" and last name "Lee" gets the claim `last_name = "Ann"` | the `last_name` claim carries the last name | not executed; high | AccountSerializers.GetTokenAsWritten | AccountSerializers.GetToken |
| app/accounts/serializers.py:21-22 | `validate` reads `is_creator` on the request's user, and the sign-up view allows anonymous requests | an unauthenticated sign-up request without `managers`: the anonymous user has no `is_creator`, so validation raises | an anonymous sign-up without `managers` is accepted | not executed; medium (the authentication settings are not part of this model) | AccountSerializers.ValidateAsWritten | AccountSerializers.Validate |
