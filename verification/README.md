# Moodist server core in Dafny

A functional model of the account, identifier and relationship logic of the
Moodist Flask server, with proofs of what its routes and helpers promise.

The CouchDB store is `DocStore.Db`. It maps partition names (CouchDB
databases) to sequences of JSON-like documents in the order they were added. It also records which
partitions cannot be reached. Every route handler is a pure function from a
store and a request to a new store and a reply (`Replies.Reply`). A reply is a
success status with a value, or an error code with its HTTP status.
Randomness, the clock, `uuid4`, JWT decoding, Argon2, SHA-256 and the SMTP
exchange are all parameters.

Modules:

- `DocStore`: documents, selector matching, `find_documents` with its limit
  rule, and get/update/delete/save/create.
- `Text`, `Replies`, `Sorting`: Python string helpers, reply codes, and the
  stable descending sort.
- `Ids`: the six-letter public identifier. This covers `validate_unique_id`,
  the random rotation draw and the `id_generator` retry loop.
- `Tokens`: verification codes, peppered password hashing, and the timed
  signed tokens with their legacy wrappers.
- `Verifications`, `Users`: the verification record and the account record.
- `Connections`: JWT authentication and connect / list / remove / status.
- `ReferenceLines`: the reference lines inside a connection, and the GET,
  POST, PUT and DELETE handlers.
- `Patients`: identifier rotation (`generate-new-id`, `change-id`), which
  severs connections, and `get_patient_info`.
- `Accounts`: `get_database_name`, `find_user_by_email`, the registration
  identifier allocator, `create_user` and `verify_link`.
- `MoodLogs`: score validation, saving, listing and the "logged today" query.
- `EmailConfig`: the configuration check of `send_email` and
  `validate_email_config`.
- `*Facts` modules: properties that relate several operations.

Some behaviours of the code are easy to miss:

- Reference-line ids are `max + 1` of the ids present. Deleting the highest
  line lets its id be reused (`ReferenceLineFacts.DeleteHighestFreesId`).
- The registration allocator draws identifiers from A–Z and 0–9. The format
  check accepts letters only, so an identifier holding a digit is refused by
  `connect` (`AccountFacts.AllocatedWithDigitRejected`).
- Python's `bool` is an `int`. `True` therefore passes the mood-score check
  and matches `1` in a selector.

## Model

| member | source | states |
|---|---|---|
| DocStore.Filter | src/utils/couchdb_client.py:259-268 | a document is kept iff it is in the partition and every selector key is present with an equal value |
| DocStore.FindInSpec | src/utils/couchdb_client.py:259-279 | the scan returns the matches in store order, cut at `limit` when the limit is truthy and unlimited for None or 0 |
| DocStore.FindInFacts | src/utils/couchdb_client.py:259-279 | every result matches and comes from the partition; the result is empty iff nothing matches; a limit bounds the count |
| DocStore.CollectSpec | src/utils/couchdb_client.py:259-279 | the scanning loop with results so far equals those results plus the (cut) filtered rest |
| DocStore.Find | src/utils/couchdb_client.py:238-285 | an unreachable partition gives []; results match; empty iff no document matches; a limit bounds the count |
| DocStore.FindAll | src/utils/couchdb_client.py:238-285 | without a limit the lookup is exactly the filtered partition |
| DocStore.FindOne | src/utils/couchdb_client.py:238-285 | a `limit=1` lookup gives the first match in store order, None iff unreachable or nothing matches |
| DocStore.FindOneSame | src/utils/couchdb_client.py:238-285 | a lookup depends only on the partition's documents and reachability |
| DocStore.GetDefault | src/utils/couchdb_client.py:264-268 | `dict.get` with a default: the stored value when the key is present, the default otherwise |
| DocStore.WithDocs | src/utils/couchdb_client.py:223-236 | replacing one partition leaves every other partition and reachability unchanged |
| DocStore.GetDocument | src/utils/couchdb_client.py:152-174 | None for a missing id or an unreachable partition, otherwise a document of the partition with that `_id` |
| DocStore.WithoutId | src/utils/couchdb_client.py:186-192 | exactly the documents with another `_id` remain, and fewer of them iff one had the id |
| DocStore.DeleteDocument | src/utils/couchdb_client.py:186-192 | the flag (the model's; the source returns the client's answer or None) is true iff a reachable partition holds a document with the id; then only documents with that id go, otherwise nothing changes |
| DocStore.Patch | src/utils/couchdb_client.py:176-184 | the documents with the id are merged with the update; all other documents stay, in place |
| DocStore.Patched | src/utils/couchdb_client.py:176-184 | `dict.update`: the keys of both documents, with the values of the update winning and every other value kept |
| DocStore.UpdateDocument | src/utils/couchdb_client.py:176-184 | false and no change when the document is absent; otherwise only that partition is patched |
| DocStore.Replace | src/utils/couchdb_client.py:223-236 | every document with the id is replaced and the others keep their place |
| DocStore.Upsert | src/utils/couchdb_client.py:223-236 | the saved document is present, appended when its `_id` is new, and replaces only documents with its `_id` |
| DocStore.SaveDocument | src/utils/couchdb_client.py:223-236 | fails iff the partition cannot be reached; otherwise only that partition changes, by an upsert |
| DocStore.CreateDocument | src/utils/couchdb_client.py:141-150 | None iff the partition is unreachable or the id is taken; otherwise the document with its new `_id` is appended and nothing else changes |
| DocStore.SavedIsFound | src/utils/couchdb_client.py:223-285 | after a save, a selector the saved document alone (by `_id`) matched finds exactly that document |
| DocStore.DatabaseName | src/routes/auth_routes.py:18-25 | patient→patient, doctor→clinician, everything else→moodist, in both directions |
| DocStore.GetUserDatabase | src/utils/couchdb_client.py:93-111 | uses the same role→partition mapping, None iff that partition is unreachable |
| Text.LStripBy | src/routes/connection_routes.py:136 | drops exactly the leading characters satisfying the predicate |
| Text.RStripBy | src/routes/connection_routes.py:136 | drops exactly the trailing characters satisfying the predicate |
| Text.StripEmptyIffAllSpace | src/routes/connection_routes.py:662-664 | a stripped string is empty iff every character is whitespace |
| Text.Upper | src/routes/connection_routes.py:136 | upper-cases each ASCII letter position by position |
| Text.Lower | src/routes/auth_routes.py:116 | lower-cases each ASCII letter position by position |
| Text.UpperIdempotent | src/routes/connection_routes.py:136 | upper-casing twice is upper-casing once |
| Text.LowerIdempotent | src/models/user.py:27-29 | lower-casing twice is lower-casing once |
| Text.UpperHasNoLower | src/utils/id_generator.py:66-67 | after upper-casing no lower-case letter is left |
| Text.Before | src/utils/email_sender.py:145 | `split(sep)[0]`: the longest prefix without `sep` |
| Text.After | src/routes/connection_routes.py:37 | the rest after the first `sep`, None iff `sep` does not occur |
| Text.SecondField | src/routes/connection_routes.py:36-43 | `split(sep)[1]` exists iff `sep` occurs, and holds no `sep` |
| Text.StrLeTotal | src/models/mood_log.py:135 | Python string comparison orders any two strings |
| Text.StrLeTrans | src/models/mood_log.py:135 | Python string comparison is transitive |
| Text.StrLeAntisym | src/models/mood_log.py:135 | two strings each at most the other are equal |
| Text.Decimal | src/utils/email_sender.py:138 | `str(n)` is non-empty decimal digits with no leading zero |
| Text.DecimalRoundTrip | src/utils/email_sender.py:36 | reading back `str(n)` gives `n` |
| Replies.TextField | src/routes/connection_routes.py:136 | an absent key reads as "", a string as itself, any other value makes the handler raise |
| Replies.UidCheck | src/utils/id_generator.py:52-74 | an empty identifier is the handler's missing-field error; otherwise it passes iff six letters A–Z, and fails with INVALID_UNIQUE_ID if not |
| Sorting.Insert | src/routes/connection_routes.py:265 | inserting into a descending list keeps it descending and adds exactly one element |
| Sorting.SortBy | src/routes/connection_routes.py:265 | the result is descending and a permutation of the input; it is stable (Sorting.SortByStable) |
| Sorting.InsertTies | src/routes/connection_routes.py:265 | inserting an element puts it before every element whose key ties with it and keeps the tied elements' order |
| Sorting.SortByStable | src/routes/connection_routes.py:265 | elements whose keys tie appear in the sorted list in their input order (Python's sort is stable) |
| Sorting.SortOfSorted | src/routes/connection_routes.py:597 | sorting an already descending list changes nothing (the sort is stable) |
| Ids.ValidUniqueIdIff | src/utils/id_generator.py:52-74 | valid iff exactly six characters, all upper-case letters; the model's letters are ASCII A–Z (see Left out) |
| Ids.Choose | src/routes/patient_routes.py:17-19 | one alphabet character per draw |
| Ids.LettersAreUpper | src/routes/patient_routes.py:19 | every A–Z letter is upper-case |
| Ids.GenerateRandomUniqueId | src/routes/patient_routes.py:17-19 | six draws give a valid identifier |
| Ids.GenerateUniqueId | src/utils/id_generator.py:10-50 | None for a null database; otherwise the first of at most `max_attempts` candidates (and no more than there are draws) whose mapping document is absent, else None |
| Tokens.GenerateVerificationCode | src/utils/token_generator.py:25-40 | exactly one character per draw, each a decimal digit |
| Tokens.HashPassword | src/utils/token_generator.py:42-70 | hashes password plus pepper, None iff the hasher fails; without a pepper the bare password is hashed |
| Tokens.VerifyPassword | src/utils/token_generator.py:72-97 | true iff the verifier accepts password plus pepper; a mismatch or error gives false |
| Tokens.HashThenVerify | src/utils/token_generator.py:42-97 | a password hashed under one configuration verifies under it, given a sound hasher |
| Tokens.Loads | src/utils/token_generator.py:154-165 | a payload comes back iff the token was signed with the same key and salt and its age is within the maximum |
| Tokens.GenerateVerificationToken | src/utils/token_generator.py:99-130 | None iff SECRET_KEY or SECURITY_PASSWORD_SALT is unset; otherwise a token over the email, code and purpose |
| Tokens.VerifyVerificationToken | src/utils/token_generator.py:132-185 | max age is days×86400; the payload only for a genuine fresh token with purpose email_verification and the matching code |
| Tokens.VerificationTokenRoundTrip | src/utils/token_generator.py:99-185 | a token verifies with its own code until exactly `days` days have passed, and not after |
| Tokens.VerificationTokenWrongCode | src/utils/token_generator.py:176-178 | a wrong code is refused even on a genuine, fresh token |
| Tokens.SevenDayBoundary | src/utils/token_generator.py:154-161 | one second inside seven days verifies, one second past does not |
| Tokens.LegacyDays | src/utils/token_generator.py:187-204 | no expiration means 7 days, otherwise `max(1, expiration // 86400)`, never below 1 |
| Tokens.LegacyDaysExamples | src/utils/token_generator.py:194 | floor division examples for the legacy conversion |
| Tokens.GenerateToken | src/utils/token_generator.py:187-195 | None iff the signer is unconfigured; the converted expiration is passed on as `expiration_days`, which the generator never reads, so the token is the seven-day token whatever expiration is given |
| Tokens.VerifyToken | src/utils/token_generator.py:197-204 | the legacy verifier applies the converted whole days |
| Tokens.LegacyExpirationNeverBelowOneDay | src/utils/token_generator.py:194-204 | a sub-day legacy expiration still grants a whole day |
| Tokens.GenerateVerificationLinkToken | src/utils/token_generator.py:206-242 | None iff the signer is not configured; otherwise a token over email, user type and days |
| Tokens.VerifyLinkToken | src/utils/token_generator.py:244-283 | max age defaults to 7×24×60×60; any genuine fresh token's payload, with no purpose check |
| Tokens.LinkTokenIgnoresExpiresInDays | src/utils/token_generator.py:264-270 | a link token minted for one day still verifies six days later |
| Tokens.TokenPurposes | src/utils/token_generator.py:164-174 | a code token is accepted as a link token, but a link token is refused as a code token |
| Tokens.GeneratePasswordToken | src/utils/token_generator.py:285-332 | None unless the signer is configured and hashing succeeds; the token carries the peppered hash |
| Tokens.VerifyPasswordToken | src/utils/token_generator.py:334-391 | the payload iff the signer is configured, the token is genuine and fresh, it carries a non-empty hash string, and the verifier accepts the peppered password |
| Tokens.PasswordTokenRoundTrip | src/utils/token_generator.py:285-391 | a fresh password token verifies with the password it was made from |
| Tokens.LegacyPasswordHash | src/utils/token_generator.py:393-397 | the legacy hash is the digest of the bare password |
| Tokens.LegacyHashRoundTrip | src/utils/token_generator.py:393-401 | the legacy pair accepts the password and refuses one with another digest |
| Verifications.New | src/models/verification.py:9-35 | the email is lower-cased and `expires_at` defaults to creation + 7 days |
| Verifications.ToDict | src/models/verification.py:37-55 | every field is written under its key |
| Verifications.FromDict | src/models/verification.py:57-80 | lower-cases the email; a missing expiry gets the 7-day default and missing attempts 0; None outside the modelled field types (see Left out) |
| Verifications.FromDictToDict | src/models/verification.py:37-80 | `from_dict(to_dict(v))` reproduces the record |
| Verifications.NewRoundTrip | src/models/verification.py:9-80 | a freshly built record survives a store round trip |
| Verifications.TimeRemaining | src/models/verification.py:128-141 | `max(0, expires_at − now)` |
| Verifications.Increment | src/models/verification.py:97-105 | attempts rise by exactly one; status becomes failed from 5 attempts and is otherwise unchanged |
| Verifications.IncrementTimesSpec | src/models/verification.py:97-126 | `n` increments add exactly `n` attempts; from the fifth on the status is failed and no attempt is allowed |
| Verifications.FiveIncrementsBlock | src/models/verification.py:97-126 | five increments from a fresh record block further attempts |
| Verifications.MarkVerified | src/models/verification.py:107-111 | only the status changes, to verified |
| Verifications.MarkExpired | src/models/verification.py:113-117 | only the status changes, to expired |
| Verifications.MarkedBlocksAttempts | src/models/verification.py:107-126 | a verified or expired record admits no attempt at any time |
| Users.NewUser | src/models/user.py:10-48 | email lower-cased, `_id` = "user:" + email; None iff a given password fails to hash |
| Users.ToDict | src/models/user.py:50-78 | every field, with `unique_id` only when set |
| Users.FromDict | src/models/user.py:80-108 | lower-cases the email and gives absent fields the constructor defaults; None outside the modelled field types (see Left out) |
| Users.ToDictFromDict | src/models/user.py:50-108 | `to_dict(from_dict(to_dict(u))) == to_dict(u)` for a record with a lower-case email |
| Users.ReadBack | src/models/user.py:80-108 | reading the stored form gives back the record, with a falsy `unique_id` read as null |
| Users.VerifyAccount | src/models/user.py:110-124 | sets verified, active and status verified; replaces `unique_id` only when one is given |
| Users.PendingIffCanResend | src/models/user.py:126-142 | both queries are "pending_verification and not verified", and a verified account answers neither |
| Users.UpdatePassword | src/models/user.py:144-159 | false and no change when hashing fails; otherwise the new hash and `updated_at` |
| Users.UpdatePasswordThenVerify | src/models/user.py:144-159 | after an update the stored hash verifies the new password |
| Users.DisplayName | src/models/user.py:161-172 | "first last" when both are set, first alone when only it is, else the email |
| Users.DisplayNameSplits | src/models/user.py:161-172 | with both names set and no space in the first, splitting the display name at its first space gives back the first and last names |
| Connections.Authenticate | src/routes/connection_routes.py:25-100 | refusals in order: missing header, no second word, JWT rejection, no active token record, non-timestamp or expired `expires_at` of the first record found, missing claims; otherwise the principal from the claims' `clinician_id` and `email` |
| Text.SplitFirstWord | src/routes/connection_routes.py:37 | splitting `w + " " + rest` at the first space gives `w` and then `rest` |
| Connections.AuthIgnoresScheme | src/routes/connection_routes.py:36-37 | any first word authenticates exactly like "Bearer" |
| Connections.AuthDecodesBeforeStore | src/routes/connection_routes.py:45-55 | a token the decoder rejects is refused whatever the store holds |
| Connections.AuthReadsOnlyToken | src/routes/connection_routes.py:27-43 | two non-empty headers with the same second word authenticate alike |
| Connections.ConnectCheck | src/routes/connection_routes.py:126-151 | 400 for an empty body; MISSING_FIELD when the stripped, upper-cased id is empty; INVALID_UNIQUE_ID when it is ill-formed; 500 for a non-string id; otherwise exactly the normalised id passes, before any store access |
| Connections.ConnectionDoc | src/routes/connection_routes.py:187-201 | the new connection carries the uuid as `_id` and `connection_id`, no reference lines, and matches the existing-connection selector |
| Connections.ConnectTo | src/routes/connection_routes.py:154-213 | 404 without a patient, 409 with an existing active connection, otherwise one new active connection with no reference lines |
| Connections.Connect | src/routes/connection_routes.py:124-221 | the body checks come first, then the store step |
| Connections.Summaries | src/routes/connection_routes.py:256-262 | one summary per connection, in order |
| Connections.ListConnections | src/routes/connection_routes.py:250-274 | the caller's active connections, newest first, as a permutation of the lookup |
| Connections.ListIsExactlyOwnActive | src/routes/connection_routes.py:250-272 | every listed entry summarises an active connection of the caller, and each such connection is listed |
| Connections.ByConnectionId | src/routes/connection_routes.py:330-335 | selects by connection id and only among the caller's active connections |
| Connections.ByPatient | src/routes/connection_routes.py:336-341 | selects by patient identifier and only among the caller's active connections |
| Connections.RemoveCheck | src/routes/connection_routes.py:307-341 | 400 without a body or without either id, 500 for a non-string id; otherwise the selector by the stripped connection id when one is given, else by the normalised patient id, always limited to the caller's active connections |
| Connections.RemoveConnection | src/routes/connection_routes.py:305-360 | 404 and no change when the selector finds nothing; otherwise the first connection it finds is deleted by `_id`, with its lines, and nothing else changes (500 when it has no `_id`) |
| Connections.ConnectionStatus | src/routes/connection_routes.py:387-428 | 400 for an ill-formed id; otherwise exactly `connected`, the normalised `patient_unique_id` and `connected_at`: connected iff an active connection of the caller is found, and `connected_at` is that connection's `created_at`, or null |
| ConnectFacts.ConnectValidatesFirst | src/routes/connection_routes.py:126-151 | a refused body is refused identically whatever the store holds |
| ConnectFacts.ConnectAddsOne | src/routes/connection_routes.py:187-201 | with a fresh id, exactly one active connection with no lines is added and nothing else changes |
| ConnectFacts.ConnectThenConnected | src/routes/connection_routes.py:372-428 | after a successful connect, the status of the same identifier answers connected |
| ConnectFacts.ConnectedIsActive | src/routes/connection_routes.py:186-201 | the connection a connect saves is found as an active connection of the caller to that identifier |
| ConnectFacts.ConnectTwiceConflicts | src/routes/connection_routes.py:172-184 | a second identical connect is refused with 409 and changes nothing |
| ConnectFacts.ConnectedThenConflict | src/routes/connection_routes.py:172-184 | after any successful connect, connecting again to the same patient conflicts |
| ConnectFacts.SavedFreshAppends | src/routes/connection_routes.py:187-201 | saving a document with a fresh `_id` appends it |
| ReferenceLines.DescriptionCheck | src/routes/connection_routes.py:662-676 | passes iff the description is a string whose stripped form has 1 to 500 characters, and gives that form; empty gives MISSING_FIELD, over 500 INVALID_FIELD, a non-string 500 |
| ReferenceLines.DatetimeCheck | src/routes/connection_routes.py:679-690 | a falsy datetime means none; a string must parse, else INVALID_DATETIME |
| ReferenceLines.LineRequestCheck | src/routes/connection_routes.py:642-690 | identifier, body, description and datetime are checked in that order, all before the connection lookup; a request passing all four is accepted with the normalised id, description and datetime |
| ReferenceLines.LinesOf | src/routes/connection_routes.py:714 | a missing `reference_lines` reads as [] |
| ReferenceLines.LoopLines | src/routes/connection_routes.py:853-857 | the lines the edit and delete loops run over: a list as itself, and an empty string or object as no lines |
| ReferenceLines.MaxRefId | src/routes/connection_routes.py:717 | the largest `ref_id` of a non-empty list: every id is at most it and one equals it, negative ids included, as `max` gives |
| ReferenceLines.NextRefId | src/routes/connection_routes.py:714-717 | greater than every id present; 1 for no lines; otherwise one more than an id present |
| ReferenceLines.FirstIndex | src/routes/connection_routes.py:856-860 | the first line with the id, None iff there is none |
| ReferenceLines.UpdateFirst | src/routes/connection_routes.py:856-873 | only the first line with the id changes: its description, its datetime when supplied, and `updated_at` |
| ReferenceLines.RemoveLines | src/routes/connection_routes.py:951-957 | exactly the lines with another id remain, in order; the length is unchanged iff none had the id |
| ReferenceLines.WithLines | src/routes/connection_routes.py:732-733 | the connection gets the new lines and `updated_at` and nothing else changes |
| ReferenceLines.AppendLine | src/routes/connection_routes.py:714-736 | 201 with one new line at the end whose id is fresh |
| ReferenceLines.EditLine | src/routes/connection_routes.py:853-877 | 404 when no line has the id, including a stored `""` or `{}`; 500 only for what the loop cannot iterate; otherwise the first such line is edited |
| ReferenceLines.DropLine | src/routes/connection_routes.py:951-966 | 404 when no line has the id, including a stored `""` or `{}`; 500 only for what the comprehension cannot iterate; otherwise those lines go and the rest keep their order |
| ReferenceLines.AddTo | src/routes/connection_routes.py:695-736 | NO_CONNECTION iff the caller has no active connection; otherwise the connection is saved with the line appended |
| ReferenceLines.AddRefLine | src/routes/connection_routes.py:640-751 | request checks first, then the store step; a missing datetime defaults to now |
| ReferenceLines.EditIn | src/routes/connection_routes.py:834-880 | NO_CONNECTION iff none; an error leaves the store alone; otherwise the edited connection is saved |
| ReferenceLines.UpdateRefLine | src/routes/connection_routes.py:781-896 | request checks first, then the store step |
| ReferenceLines.DropFrom | src/routes/connection_routes.py:932-969 | NO_CONNECTION iff none; an error leaves the store alone; otherwise the connection is saved without the lines |
| ReferenceLines.DeleteRefLine | src/routes/connection_routes.py:920-976 | the identifier check first, then the store step |
| ReferenceLines.GetRefLines | src/routes/connection_routes.py:563-611 | 400, then NO_CONNECTION; 500 iff the stored lines are not a list; otherwise 200 with the connection's lines, most recent first, as a permutation in which equal datetimes keep their stored order |
| ReferenceLineFacts.RemoveLinesAppend | src/routes/connection_routes.py:955 | deletion distributes over concatenation, so kept lines stay in order |
| ReferenceLineFacts.RemoveAbsent | src/routes/connection_routes.py:955-957 | deleting an id no line has changes nothing |
| ReferenceLineFacts.RemoveKeepsDistinct | src/routes/connection_routes.py:955 | deletion keeps ids pairwise distinct |
| ReferenceLineFacts.AddKeepsDistinct | src/routes/connection_routes.py:714-729 | an added line keeps ids distinct and grows the list by one |
| ReferenceLineFacts.UpdateKeepsIds | src/routes/connection_routes.py:856-873 | editing never renumbers a line |
| ReferenceLineFacts.DeleteHighestFreesId | src/routes/connection_routes.py:717 | after deleting the highest line the next id is at most the deleted one |
| ReferenceLineFacts.RefIdReuseExample | src/routes/connection_routes.py:717 | with ids 1,2,3: deleting 3 makes the next id 3 again, deleting 2 makes it 4 |
| ReferenceLineFacts.AddThenDeleteRestores | src/routes/connection_routes.py:714-969 | deleting the line just added restores the lines |
| ReferenceLineFacts.AddThenListed | src/routes/connection_routes.py:550-611 | with one active connection, after a successful add the listing answers 200 with the old lines plus the added one |
| ReferenceLineFacts.AddedIsConnection | src/routes/connection_routes.py:697-736 | after the add is saved, the lookup the handlers share finds the changed connection |
| ReferenceLineFacts.AddThenEditFinds | src/routes/connection_routes.py:714-873 | an edit of the line just added changes only that last line |
| ReferenceLineFacts.DeleteThenNotFound | src/routes/connection_routes.py:856-960 | after a delete, editing or deleting the id again answers 404 |
| Patients.DeleteEach | src/routes/patient_routes.py:38-39 | only the connections partition changes; no remaining document has the id of a deleted one; the rest survive |
| Patients.RemovePatientConnections | src/routes/patient_routes.py:21-45 | when every found connection has `_id` and `connection_id`, no active connection of the patient remains, whatever its identifier; with unique `_id`s every other connection stays; an unreachable partition leaves the store alone; nothing outside the partition changes |
| Patients.MatchesGone | src/routes/patient_routes.py:30-40 | once every found connection is deleted by `_id`, no remaining connection matches the selector |
| Patients.OthersKept | src/routes/patient_routes.py:30-40 | with unique `_id`s, every connection that did not match survives the deletions |
| Patients.RotatedDoc | src/routes/patient_routes.py:256-258 | only `unique_id`, `updated_at` and `unique_id_changed_at` change |
| Patients.Rotate | src/routes/patient_routes.py:244-276 | 500 iff the patient partition is unreachable; the count taken before; the rotated patient saved; the patient's connections severed; with unique `_id`s every other connection stays; other partitions unchanged |
| Patients.IdField | src/routes/patient_routes.py:80 | the body field stripped and upper-cased, None where the handler raises |
| Patients.GenerateCheck | src/routes/patient_routes.py:70-96 | empty body, missing id and ill-formed id are refused before the store, and a non-string id is the 500 of `.strip()`; otherwise a valid id |
| Patients.GenerateNewUniqueId | src/routes/patient_routes.py:68-154 | 404 without a patient; otherwise a rotation to a freshly drawn valid id, with no collision check |
| Patients.ChangePairCheck | src/routes/patient_routes.py:194-216 | missing, then ill-formed, then equal ids are refused; passes iff both valid and different |
| Patients.ChangeCheck | src/routes/patient_routes.py:181-216 | the body checks of change-id, all before the store |
| Patients.ChangeUniqueId | src/routes/patient_routes.py:179-284 | PATIENT_NOT_FOUND iff no patient has the current id; UNIQUE_ID_TAKEN iff a patient has the new one; otherwise the rotation |
| Patients.Info | src/routes/patient_routes.py:342-352 | exactly `patient_id`, `unique_id` and the three timestamps, each copied from the document; never the password |
| Patients.InfoCheck | src/routes/patient_routes.py:307-323 | a missing parameter, then an ill-formed id, are refused before the store |
| Patients.GetPatientInfo | src/routes/patient_routes.py:305-352 | the checks, then 404 iff no patient has the id; a found patient is answered 200 with the public fields of the first match |
| PatientFacts.RotateToFreeId | src/routes/patient_routes.py:233-261 | after rotating to an unused id, that id finds exactly the rotated document |
| PatientFacts.ChangeThenInfo | src/routes/patient_routes.py:305-352 | after a successful change-id, the info of the new identifier is the rotated patient's, carrying that identifier |
| PatientFacts.ChangeEffects | src/routes/patient_routes.py:244-276 | after change-id the new id finds the patient, no active connection of it remains, and the count is the old one |
| PatientFacts.LetterIndex | src/routes/patient_routes.py:19 | an upper-case letter sits at its alphabet position |
| PatientFacts.DrawsSpelling | src/routes/patient_routes.py:17-19 | every valid identifier is what some six draws spell |
| PatientFacts.GenerateMayKeepSameId | src/routes/patient_routes.py:124-132 | some draw hands back the patient's current identifier and the route still succeeds |
| Accounts.FindUserByEmail | src/routes/auth_routes.py:27-49 | the first account with that email in the type's partition; None when there is none or it is unreachable |
| Accounts.Candidate | src/routes/auth_routes.py:59 | each attempt spells six characters from A–Z0–9 |
| Accounts.FirstFreeAttempt | src/routes/auth_routes.py:57-90 | the first attempt from `i` whose candidate is not taken, None when all are |
| Accounts.AllocateUniqueId | src/routes/auth_routes.py:51-90 | at most 50 attempts; the first candidate no partition holds as an id or `unique_id`; None on exhaustion |
| Accounts.CreateCheck | src/routes/auth_routes.py:100-123 | passes iff the user type is known, the body non-empty, the stripped, lower-cased email non-empty and the password truthy; otherwise 400 (bad type, empty body, empty field) or 500 for a non-string email; the passed email is stripped and lower-cased |
| Accounts.PendingUser | src/routes/auth_routes.py:182-198 | the saved document is pending, unverified, with the hash and token, keeping `_rev` of an existing account |
| Accounts.RegistrationDoc | src/routes/auth_routes.py:149-198 | token, hash and id failures in that order; an existing account keeps its `_id`, a new one gets an allocated id |
| Accounts.Register | src/routes/auth_routes.py:126-291 | a verified account gets redirect-to-reset and no write; otherwise a pending document is saved, even when the email fails |
| Accounts.CreateUser | src/routes/auth_routes.py:93-298 | the request checks first, then registration |
| Accounts.PartitionFor | src/routes/auth_routes.py:315-328 | the partition the link's user type names |
| Accounts.VerifiedUser | src/routes/auth_routes.py:348-356 | status verified, verified flag, the new `unique_id` and `verified_at`; the token fields removed; the rest kept |
| Accounts.LinkTarget | src/routes/auth_routes.py:308-323 | an invalid or expired link or an empty payload is INVALID_LINK, a falsy email or user type INVALID_PAYLOAD, an unusable user type 500; a complete payload passes with its partition and email |
| AccountFacts.GenuineLinkAccepted | src/routes/auth_routes.py:308-361 | a link minted for a non-empty email and user type passes for seven days, and `verify_link` then verifies that account |
| Accounts.VerifyAccountIn | src/routes/auth_routes.py:328-372 | 404 without an account; an already verified one answers "Email verified" without writing; 500 and no write when allocation fails |
| Accounts.VerifyLink | src/routes/auth_routes.py:301-379 | the link checks first, then the account step |
| AccountFacts.VerifiedKeepsIdentity | src/routes/auth_routes.py:348-356 | verifying keeps the account's email and `_id` |
| AccountFacts.SavedVerifiedIsFound | src/routes/auth_routes.py:328-361 | after the save the email finds the verified document |
| AccountFacts.VerifiedIsFound | src/routes/auth_routes.py:328-365 | after a successful verification the email finds a verified account |
| AccountFacts.VerifyTwiceWritesOnce | src/routes/auth_routes.py:336-337 | verifying again answers the same and writes nothing |
| AccountFacts.VerifiedCannotReregister | src/routes/auth_routes.py:132-140 | a verified account that registers again is redirected and nothing is written |
| AccountFacts.RegisteredIsPending | src/routes/auth_routes.py:169-203 | after a registration that saved, the email finds a pending account |
| AccountFacts.AlphanumericChar | src/routes/auth_routes.py:59 | an allocator character is exactly one of upper-case letter or digit |
| AccountFacts.AllocatedIsNormal | src/routes/connection_routes.py:136 | an allocated identifier is unchanged by strip and upper |
| AccountFacts.AllocatedWithDigitRejected | src/utils/id_generator.py:72-73 | connect accepts an allocated identifier iff it has no digit; one with a digit gets INVALID_UNIQUE_ID |
| MoodLogs.FirstBadScore | src/models/mood_log.py:70-77 | none iff q`k`..q5 are all integers in 0..3; otherwise the lowest failing question, missing or out of range |
| MoodLogs.ScoreCheck | src/models/mood_log.py:65-77 | a non-dictionary is refused; passes iff q1..q5 are present integers in 0..3; the error names the lowest failing question |
| MoodLogs.SaveMoodLog | src/models/mood_log.py:52-111 | a refused score or failed create changes nothing; otherwise one document with the scores as given is appended |
| MoodLogs.HasLoggedToday | src/models/mood_log.py:17-50 | true iff a log of the user carries today's date; false when the lookup fails |
| MoodLogs.GetUserLogs | src/models/mood_log.py:113-141 | the limited lookup sorted by timestamp, most recent first, as a permutation |
| MoodLogFacts.QuestionKeys | src/models/mood_log.py:71 | the five question keys are "q1" to "q5" |
| MoodLogFacts.ExtraKeysPass | src/models/mood_log.py:70-92 | extra keys and a boolean answer pass the check |
| MoodLogFacts.LowestQuestionNamed | src/models/mood_log.py:70-77 | a missing q2 is reported before an out-of-range q4 |
| MoodLogFacts.FilterAppendOne | src/utils/couchdb_client.py:259-268 | filtering distributes over appending one document |
| MoodLogFacts.StoredLogFacts | src/models/mood_log.py:87-93 | the stored log is one of its user's logs, for its day, with its timestamp |
| MoodLogFacts.SaveThenLoggedToday | src/models/mood_log.py:17-101 | after a log is stored, the user has logged today |
| MoodLogFacts.SaveThenListed | src/models/mood_log.py:86-137 | after a log is stored, the unlimited listing is the old one plus that log |
| MoodLogFacts.LimitCutsBeforeSorting | src/models/mood_log.py:132-135 | with a limit, the first logs in partition order (`_id` order) are kept, so the newest may be missing |
| EmailConfig.StripQuotePair | src/utils/email_sender.py:47-49 | one enclosing pair of double quotes comes off when both are there; otherwise nothing changes |
| EmailConfig.Port | src/utils/email_sender.py:36 | the default 465 when unset; None iff the setting is not decimal digits |
| EmailConfig.SmtpLogin | src/utils/email_sender.py:34-49 | None iff host, user or password is missing; otherwise those settings with the quote pair stripped |
| EmailConfig.SendEmail | src/utils/email_sender.py:13-102 | None where the port cannot be read; false without connecting when the configuration is incomplete; otherwise exactly the SMTP exchange's answer for the login built from the settings |
| EmailConfig.MissingIssues | src/utils/email_sender.py:121-131 | one issue per missing setting, none iff all three are set |
| EmailConfig.CleanPassword | src/utils/email_sender.py:134 | the password with its longest run of leading quotes and its longest run of trailing quotes (either kind) removed, and nothing else |
| EmailConfig.QuoteLead | src/utils/email_sender.py:134 | the number of leading quotes: all of them are quotes and the next character, if any, is not |
| EmailConfig.IssuesDistinct | src/utils/email_sender.py:137-147 | the length, space and account-password issue texts differ from one another, whatever the length |
| EmailConfig.GmailIssues | src/utils/email_sender.py:136-147 | the length issue (first, with the length) iff the length is not 16, the space issue iff the password holds a space, the account-password issue iff it equals the account name; none iff all three checks pass |
| EmailConfig.GmailAdvice | src/utils/email_sender.py:136-147 | the Gmail issues, each paired with the recommendation the source appends beside it |
| EmailConfig.ValidateEmailConfigAsWritten | src/utils/email_sender.py:104-149 | raises iff the host is Gmail, a password is set and the user is absent |
| EmailConfig.ValidateEmailConfig | src/utils/email_sender.py:104-149 | `valid` iff host, user and password are set; the missing-setting issues come first, then exactly the Gmail advice; the advice never changes `valid` |
| EmailConfigFacts.QuotePairRoundTrip | src/utils/email_sender.py:48-49 | quoting then stripping gives the password back, and only one pair comes off |
| EmailConfigFacts.PortRoundTrip | src/utils/email_sender.py:36 | a port written as `str(n)` reads back as `n` |
| EmailConfigFacts.ValidIffSenderConnects | src/utils/email_sender.py:42-45 | the report is valid exactly when `send_email` goes on to connect |
| EmailConfigFacts.CorrectionAgrees | src/utils/email_sender.py:104-149 | wherever the report as written returns, the corrected one returns the same |
| EmailConfigFacts.MissingUserWithGmail | src/utils/email_sender.py:136-147 | the report as written raises for Gmail with a password and no user; the corrected one reports the missing user |
| EmailConfigFacts.CleanKeepsUnquoted | src/utils/email_sender.py:134 | a password with no quote at either end is checked as it is |
| EmailConfigFacts.CleanDropsQuotes | src/utils/email_sender.py:134 | single quotes around a password are removed before the checks |
| EmailConfigFacts.LocalPartOf | src/utils/email_sender.py:145 | the local part of `name@domain` is `name` |
| EmailConfigFacts.OnlyLengthAdvice | src/utils/email_sender.py:136-147 | a password whose only fault is its length draws exactly the length issue and its recommendation |
| EmailConfigFacts.LengthIssueText | src/utils/email_sender.py:138 | the length issue for a one-digit length, spelled out |
| EmailConfigFacts.ShortPasswordAdvice | src/utils/email_sender.py:137-139 | a six-character password against `clinic@gmail.com` draws only the length issue, with 6 as its count |
| EmailConfigFacts.ShortGmailPasswordStaysValid | src/utils/email_sender.py:121-147 | a complete Gmail setup whose password has the wrong length stays valid, with the length issue as its only issue |
| EmailConfigFacts.AppPasswordNoAdvice | src/utils/email_sender.py:136-147 | a 16-character password without spaces that is not the account name draws no advice |
| EmailConfigFacts.SingleQuotesSeenDifferently | src/utils/email_sender.py:48-49 | the report strips single quotes and finds nothing, while sending logs in with them kept |

## Left out

- HTTP plumbing: Flask requests and responses and JSON shaping. A reply is an error code with its HTTP status.
- CouchDB transport: connection setup, `query_view` and `list_databases`. An unreachable database is the `down` set.
- Documents that fail to read during `find_documents` are not modelled; every stored document reads.
- Lookups that raise inside a handler are not modelled; they are the handler's generic 500.
- Revision (`_rev`) conflicts are not modelled. A save is an upsert by `_id`, except `CreateDocument`, which refuses an existing `_id`.
- `uuid4` and the store-assigned ids are inputs. Their freshness is a precondition of the lemmas that need it.
- Timestamps are integer seconds. ISO-8601 parsing is a parameter (`iso`), and Melbourne time and other time zones are not modelled.
- `ReferenceLines.GetRefLines`: lines sort by their integer datetime. The source sorts ISO strings, and its default '' for a missing datetime is not represented.
- `Connections.ListConnections`: a `connected_at` that is not a timestamp sorts as −1. The source raises when it compares such a value with a string.
- `MoodLogs.GetUserLogs`: a found log with a non-string timestamp always gives []. The source raises, and so answers [], only when the sort actually compares values of different types.
- `EmailConfig.Port`: only plain decimal digits are read. Python's `int` also takes a sign, surrounding whitespace and underscores.
- Case mapping covers ASCII letters only; non-ASCII case folding is not modelled.
- Ids.ValidUniqueIdIff: only A–Z counts as an upper-case letter. Python's `isupper()` and `isalpha()` also accept non-ASCII capitals, so `validate_unique_id("ÉCOLEÀ")` is True in the source and false here.
- Users.FromDict: the record holds names as strings or null, so a stored `first_name` or `last_name` of another type gives None. The source passes any value through, and a non-string email makes its constructor raise.
- Verifications.FromDict: attempts are integers and `expires_at` an integer second, so a stored value of another type gives None. The source stores whatever it reads and fails only later, when it compares or increments it.
- DocStore.Upsert: a new document is appended, so a partition lists documents in insertion order. CouchDB lists a database in `_id` order, so which of several matches `FindOne` returns, and which documents a `Find` limit keeps, agree with the source only when the two orders coincide.
- DocStore.CreateDocument: appends the new document, with the same ordering caveat as `DocStore.Upsert`.
- Argon2, itsdangerous, PyJWT and SHA-256 internals are function parameters or the symbolic `Token`.
- SMTP delivery is the `deliver` parameter; the HTML email templates are not modelled.
- Randomness (`secrets`) is an input sequence of draws.
- Concurrency is not modelled. Every handler runs atomically and in sequence, so read-then-write races in id allocation and line appends are out of scope.
- The deprecated `/auth/verify` endpoint (a fixed 410), the clinician mood-log route, `mood_controller.py`, the middleware and the configuration modules are glue outside the core.
- Login, logout, password reset and email change do not appear in this source.

## Findings

| source | as written | input that shows it | evidently intended | confidence | as-written member | corrected member |
|---|---|---|---|---|---|---|
| src/utils/email_sender.py:145 | `email_user.split('@')[0]` runs even when `EMAIL_HOST_USER` is absent, raising AttributeError on None | EMAIL_HOST=smtp.gmail.com, EMAIL_HOST_PASSWORD set, EMAIL_HOST_USER unset | report the missing user (already listed as an issue) and skip the username comparison | high; not executed | EmailConfig.ValidateEmailConfigAsWritten (shown by EmailConfigFacts.MissingUserWithGmail) | EmailConfig.ValidateEmailConfig (EmailConfigFacts.CorrectionAgrees, EmailConfigFacts.ValidIffSenderConnects) |
