# Creator accounts of ConlangPortal, in Dafny

This project models the creator account core of ConlangPortal's server, the
file `server/model/creator.ts`. A creator is a registered account. It has a
three-letter code, a name, optional profile fields, a bcrypt digest of its
password, an approval flag and two dates. The model covers these operations:

- `register` validates the code with `/^[a-z]{3}$/`. It then checks that no
  creator and no family already holds the code. If both checks pass, it saves
  one new unapproved record whose digest is that of the password.
- `authenticate` and `fetchOneByCode` find the first creator with a given
  code. `authenticate` also checks the password against that record's digest.
- `checkDuplication` asks the creator collection and the family collection
  whether the code is taken.
- `changeInformations` writes every entry of a patch whose value is not
  `undefined`, then saves the document.
- `CreatorCreator.create` projects a document to its public view. The view
  has no digest, and the code and name also appear as maps keyed by the role
  `"creator"`.

Files:

- `wrappers.dfy` (`Wrappers`): `Option` and `Result`.
- `creator_record.dfy` (`CreatorRecord`): the schema record, the field names,
  the single-field write and what applying a patch means.
- `creator_model.dfy` (`CreatorModel`): code validation, the lookups,
  passwords, authentication, and the class `CreatorStore`, which holds the
  collections and whose methods are `register`, `checkDuplication`,
  `authenticate`, `fetchOneByCode` and `changeInformations`.
- `creator_creator.dfy` (`CreatorCreator`): the public projection.

Abstractions:

- bcrypt is the store's hash function `hasher`. A password verifies against a
  digest when the digest equals `hasher(password)`.
- The database is held in memory. `creators` is the creator collection in
  order. `familyCodes` holds the `codes.family` value of each family record.
  A `findOne().where(...)` lookup picks the first match. The ghost log
  `queries` records every lookup and save, in the order they are issued.
- The clock (`new Date()`) and the identity of a new document are parameters
  of `Register`. `Date.toISOString` is the parameter `iso` of `Create`.
- A patch is a map from field names to `Option<Value>`. `None` stands for a
  key whose value is `undefined`.
- The schema declares `code` with `unique: true` (lines 30-31). That creates a
  unique index in the database. The store's invariant `Valid()` says creator
  codes are pairwise distinct. A `changeInformations` save whose new code
  belongs to another document is refused with `DuplicateKey` and leaves the
  collection unchanged.

The unique index applies to every save, so the database would also refuse a
second record under a taken code when two registrations run at once.
Concurrency is not modelled, so the index appears here only as `Valid()` and
the `DuplicateKey` outcome.

The schema also declares `code`, `name` and `hash` as `required` (lines 30,
33, 48). Mongoose's required check refuses a save in which one of them is the
empty string, before anything reaches the database. Both `Register` and
`ChangeInformations` model that refusal as `ValidationError`, leaving the
collection and the query log unchanged.

## Model

| member | source | states |
|---|---|---|
| CreatorRecord.Overwrite | server/model/creator.ts:64 | `anyThis[key] = value`: the written field reads the new value; every other field and the identity read as before |
| CreatorRecord.PatchDeterministic | server/model/creator.ts:60-66 | applying a patch to a document has exactly one outcome |
| CreatorRecord.PatchIdempotent | server/model/creator.ts:60-66 | applying the same patch twice gives the same document as applying it once |
| CreatorRecord.UndefinedPatchIsIdentity | server/model/creator.ts:62-66 | a patch whose every value is `undefined` changes nothing |
| CreatorModel.LowerRunIff | server/model/creator.ts:75 | an anchored match of `[a-z]{n}` holds exactly when the string has length n and every character is in 'a'..'z' |
| CreatorModel.MatchesCodePattern | server/model/creator.ts:75 | `code.match(/^[a-z]{3}$/)` succeeds if and only if the code is three characters, each in 'a'..'z' |
| CreatorModel.CodePatternExamples | server/model/creator.ts:75 | "abc" is accepted; "abc\n", "ab", "abcd", "aBc", "ab1" and "" are refused (no trailing-newline slack) |
| CreatorModel.FirstIndex | server/model/creator.ts:95 | the lookup returns the position of the first match, and returns none exactly when nothing matches |
| CreatorModel.FindOneByCode | server/model/creator.ts:103-106 | finds nothing exactly when no creator has the code; otherwise returns the first creator with the code |
| CreatorModel.FindOneByCodeUnique | server/model/creator.ts:30-31 | with distinct codes, the lookup by a creator's code returns that creator |
| CreatorModel.ComparePassword | server/model/creator.ts:115-117 | the password verifies exactly when encrypting it again would leave the document unchanged, i.e. when the stored digest is the password's |
| CreatorModel.EncryptPassword | server/model/creator.ts:110-113 | afterwards exactly the passwords with the same digest verify; no field other than the digest changes |
| CreatorModel.Authenticated | server/model/creator.ts:94-101 | returns a creator only if it is in the collection, has the code and the password verifies; returns null when no creator has the code; otherwise decides on the first creator with the code |
| CreatorModel.FindOneAfterRegister | server/model/creator.ts:84-86 | a record appended under a code nobody held is what lookup by that code returns |
| CreatorModel.AuthenticateAfterRegister | server/model/creator.ts:74-101 | after registration the password authenticates the new record, and a password with another digest authenticates nobody |
| CreatorModel.CreatorStore.CheckDuplication | server/model/creator.ts:119-125 | true if and only if some creator or some family has the code; issues the two lookups and writes nothing |
| CreatorModel.CreatorStore.Register | server/model/creator.ts:74-90 | an invalid code fails with `invalidCreatorCode` and no lookup; a taken code fails with `duplicateCreatorCode` and no write; an empty name (or digest) fails the required check with no write; otherwise exactly one record is appended with the given code, name and identity, not approved, created at the given time, with no approval date or profile fields, and the password's digest; family codes and earlier records unchanged; distinct codes preserved |
| CreatorModel.CreatorStore.Authenticate | server/model/creator.ts:94-101 | one lookup by code; the result is the one `Authenticated` describes |
| CreatorModel.CreatorStore.FetchOneByCode | server/model/creator.ts:103-106 | one lookup by code; the result is the first creator with the code |
| CreatorModel.CreatorStore.ChangeInformations | server/model/creator.ts:60-69 | the document is patched: each field with a present value (the digest, `approved` and dates included) takes it, the others keep theirs; then it is saved, unless the required check refuses an empty code, name or digest (nothing sent) or the unique index refuses a code held by another document; distinct codes preserved |
| CreatorModel.RegisterThenAuthenticate | server/model/creator.ts:74-101 | a client: after a successful registration the same password authenticates the new record, a wrong one does not, and registering the code again fails as a duplicate |
| CreatorCreator.Create | server/model/creator.ts:132-148 | the view's kind is "creator"; `codes.creator` equals `code`, and both equal the document's code; the same holds for the name; the profile fields and `approved` pass through; `createdDate` is the rendered creation date; the approval date is absent exactly when the document's is, and otherwise is its rendering |
| CreatorCreator.CreateIgnoresHash | server/model/creator.ts:146 | the view does not depend on the digest |
| CreatorCreator.CreateForgetsOnlyHash | server/model/creator.ts:133-146 | when date rendering is injective, two documents with the same view differ at most in their digests |

## Left out

- bcrypt internals: salting, the work factor 10 and the format of the digest (lines 111, 116). The hash function is a parameter, so "the stored digest differs from the password" cannot be stated.
- Persistence and the ORM: the typegoose decorators, `getModelForClass`, query building and connection handling. Storage failures, which surface as rejected promises, are not modelled.
- The `Promise.all` in `checkDuplication`: the two lookups are modelled in sequence. The check-then-insert race between concurrent requests is out of scope.
- `new Date()`, the generated document identity and `toISOString` (lines 83-84, 144-145) are parameters. A `RangeError` from an invalid date is not modelled.
- CreatorModel.CreatorStore.ChangeInformations: keys outside the schema's fields (and `id`) are not modelled. Such a key sets an arbitrary property of the document object. A key that names one of its methods, such as `save`, replaces that method, and the `this.save()` of line 67 then throws. Any other key becomes a plain property that `save()` ignores, whatever the strict option, unless it names an internal property of the document such as `isNew`, which changes what `save()` does. A value whose type does not fit its field is excluded by `WellTyped`, because mongoose casting and validation are library behaviour. When the unique index refuses the save, the in-memory document the caller still holds keeps the written fields; the model does not describe that object.
- CreatorRecord.Overwrite: for the optional profile fields `homepageUrl`, `twitterId`, `biography` and `authority`, the model does not tell `null` apart from unset: both are `None`. In the source a patch value `null` passes the `undefined` test of line 63 and is stored as `null`. `create` then passes it through (lines 139-142), so the JSON view carries the key with `null`, whereas an unset field is `undefined` and its key is left out. `CreatorCreator.Create` therefore gives one view for both. (`approvedDate` is not affected: `?.` at line 145 yields `undefined` in both cases.)
- Documents are values, not objects. The `this` of `changeInformations` is a position in the collection. `encryptPassword` is a function on that value, so aliasing of document objects is not captured.
- The family collection appears only as its `codes.family` values. `server/model/family.ts` is not part of this model.
- How approval happens (`approved`, `approvedDate`) is not part of this source.
- `client/component/page/entry-page.tsx` and `client/component/page/top-page.tsx`: React views and client-side state.
- `server/controller/internal/type.ts`: type-level request and response shapes, with no runtime logic.
