/**
 * The static operations of `CreatorSchema` over the `creators` collection:
 * code validation, the duplication check, registration, authentication,
 * lookup by code and the generic field update.
 */
module CreatorModel {
  import opened Wrappers
  import opened CreatorRecord

  /** The errors the operations raise. */
  datatype Error =
    | InvalidCreatorCode    // `register`: the code is not three lowercase letters
    | DuplicateCreatorCode  // `register`: a creator or a family already has the code
    | DuplicateKey          // the database's unique index on `code` refused a save
    | ValidationError       // mongoose's required check refused a save before it reached the database

  /** A database operation, as the store receives it. */
  datatype Query =
    | FindCreator(code: string)        // `CreatorModel.findOne().where("code", code)`
    | FindFamily(familyCode: string)   // `FamilyModel.findOne().where("codes.family", code)`
    | Save(document: Creator)          // a creator document sent to the database by `save()`

  // ---------------------------------------------------------------------
  // Code validation
  // ---------------------------------------------------------------------

  predicate IsLowerLetter(ch: char) {
    'a' <= ch <= 'z'
  }

  /** Anchored match of `[a-z]{n}`: all of `s`, and nothing more, is `n` lowercase letters. */
  function MatchesLowerRun(s: string, n: nat): bool {
    if n == 0 then s == []
    else s != [] && IsLowerLetter(s[0]) && MatchesLowerRun(s[1..], n - 1)
  }

  /** A creator code: exactly three characters, each in 'a'..'z'. */
  predicate IsCreatorCode(code: string) {
    |code| == 3 && forall i :: 0 <= i < |code| ==> IsLowerLetter(code[i])
  }

  lemma {:induction false} LowerRunIff(s: string, n: nat)
    ensures MatchesLowerRun(s, n) <==> |s| == n && forall i :: 0 <= i < |s| ==> IsLowerLetter(s[i])
  {
    if n > 0 && s != [] {
      LowerRunIff(s[1..], n - 1);
      if |s| == n && forall i :: 0 <= i < |s| ==> IsLowerLetter(s[i]) {
        assert forall i :: 0 <= i < |s[1..]| ==> s[1..][i] == s[i + 1];
      }
      if MatchesLowerRun(s, n) {
        forall i | 0 <= i < |s| ensures IsLowerLetter(s[i]) {
          if i > 0 { assert s[i] == s[1..][i - 1]; }
        }
      }
    }
  }

  /**
   * The test `code.match(/^[a-z]{3}$/)` of `register`. It accepts exactly the
   * creator codes: no trailing-newline slack, no other length, no other letters.
   */
  function MatchesCodePattern(code: string): (b: bool)
    ensures b <==> IsCreatorCode(code)
  {
    LowerRunIff(code, 3);
    MatchesLowerRun(code, 3)
  }

  lemma CodePatternExamples()
    ensures MatchesCodePattern("abc") && MatchesCodePattern("zzz")
    ensures !MatchesCodePattern("abc\n") && !MatchesCodePattern("ab") && !MatchesCodePattern("abcd")
    ensures !MatchesCodePattern("aBc") && !MatchesCodePattern("ab1") && !MatchesCodePattern("")
  {
  }

  // ---------------------------------------------------------------------
  // Lookups
  // ---------------------------------------------------------------------

  /** The codes of the creator documents, in collection order. */
  function Codes(creators: seq<Creator>): (codes: seq<string>)
    ensures |codes| == |creators|
    ensures forall i :: 0 <= i < |creators| ==> codes[i] == creators[i].code
  {
    seq(|creators|, i requires 0 <= i < |creators| => creators[i].code)
  }

  /** The position of the first key equal to `key`: what `findOne().where(field, key)` selects. */
  function FirstIndex(keys: seq<string>, key: string): (r: Option<nat>)
    ensures r.Some? ==> r.value < |keys| && keys[r.value] == key
    ensures r.Some? ==> forall j :: 0 <= j < r.value ==> keys[j] != key
    ensures r.None? <==> key !in keys
  {
    if keys == [] then None
    else if keys[0] == key then Some(0)
    else match FirstIndex(keys[1..], key)
      case None => None
      case Some(k) => Some(k + 1)
  }

  /** The creator codes are pairwise distinct, as the schema's `unique: true` demands. */
  ghost predicate CodesDistinct(creators: seq<Creator>) {
    forall i, j :: 0 <= i < j < |creators| ==> creators[i].code != creators[j].code
  }

  /** `creators[i]` is the first creator whose code is `code`. */
  predicate IsFirstWithCode(creators: seq<Creator>, i: int, code: string) {
    0 <= i < |creators| && creators[i].code == code &&
    forall j :: 0 <= j < i ==> creators[j].code != code
  }

  /** `fetchOneByCode`: the first creator whose code is `code`, if any. */
  function FindOneByCode(creators: seq<Creator>, code: string): (r: Option<Creator>)
    ensures r.None? <==> forall i :: 0 <= i < |creators| ==> creators[i].code != code
    ensures forall i :: IsFirstWithCode(creators, i, code) ==> r == Some(creators[i])
  {
    match FirstIndex(Codes(creators), code)
    case None => None
    case Some(k) => Some(creators[k])
  }

  /** With distinct codes the lookup finds the one creator holding the code. */
  lemma FindOneByCodeUnique(creators: seq<Creator>, i: nat)
    requires CodesDistinct(creators)
    requires i < |creators|
    ensures FindOneByCode(creators, creators[i].code) == Some(creators[i])
  {
  }

  /** The answer of `checkDuplication`: some creator or some family has the code. */
  predicate Taken(creators: seq<Creator>, familyCodes: seq<string>, code: string) {
    (exists i :: 0 <= i < |creators| && creators[i].code == code) || code in familyCodes
  }

  // ---------------------------------------------------------------------
  // Passwords (bcrypt, abstracted as a hash function and an equality test)
  // ---------------------------------------------------------------------

  /** `comparePassword`: the password verifies against the stored digest. */
  function ComparePassword(hasher: string -> string, c: Creator, password: string): (b: bool)
    ensures b <==> Overwrite(c, Hash, Text(hasher(password))) == c
  {
    c.hash == hasher(password)
  }

  /** `encryptPassword`: the document with its digest replaced by the password's. */
  function EncryptPassword(hasher: string -> string, c: Creator, password: string): (r: Creator)
    ensures ComparePassword(hasher, r, password)
    ensures forall p :: ComparePassword(hasher, r, p) <==> hasher(p) == hasher(password)
    ensures r.id == c.id && forall f :: f != Hash ==> Get(r, f) == Get(c, f)
  {
    Overwrite(c, Hash, Text(hasher(password)))
  }

  /** `authenticate`: the first creator with the code, provided the password verifies against it. */
  function Authenticated(creators: seq<Creator>, hasher: string -> string, code: string, password: string)
    : (r: Option<Creator>)
    ensures r.Some? ==> r.value in creators && r.value.code == code && ComparePassword(hasher, r.value, password)
    ensures (forall i :: 0 <= i < |creators| ==> creators[i].code != code) ==> r.None?
    ensures forall i :: IsFirstWithCode(creators, i, code) ==>
      r == if ComparePassword(hasher, creators[i], password) then Some(creators[i]) else None
  {
    match FindOneByCode(creators, code)
    case Some(user) => if ComparePassword(hasher, user, password) then Some(user) else None
    case None => None
  }

  // ---------------------------------------------------------------------
  // Registration followed by lookup and authentication
  // ---------------------------------------------------------------------

  /** A record appended under a code nobody held is what the lookup by that code finds. */
  lemma FindOneAfterRegister(creators: seq<Creator>, added: Creator)
    requires forall i :: 0 <= i < |creators| ==> creators[i].code != added.code
    ensures FindOneByCode(creators + [added], added.code) == Some(added)
  {
    var after := creators + [added];
    assert after[|creators|] == added;
    forall j | 0 <= j < |creators| ensures after[j].code != added.code {
      assert after[j] == creators[j];
    }
  }

  /**
   * After registering `added` with digest `hasher(password)`: the password
   * authenticates it and a password with another digest does not. (A code
   * no creator holds authenticates nobody: see `Authenticated`.)
   */
  lemma AuthenticateAfterRegister(creators: seq<Creator>, hasher: string -> string, added: Creator,
                                  password: string, other: string)
    requires forall i :: 0 <= i < |creators| ==> creators[i].code != added.code
    requires added.hash == hasher(password)
    requires hasher(other) != hasher(password)
    ensures Authenticated(creators + [added], hasher, added.code, password) == Some(added)
    ensures Authenticated(creators + [added], hasher, added.code, other) == None
  {
    FindOneAfterRegister(creators, added);
  }

  // ---------------------------------------------------------------------
  // The store
  // ---------------------------------------------------------------------

  /**
   * The `creators` collection, the `codes.family` values of the family
   * collection, and the password hash function. `queries` records every
   * database operation issued, in order.
   */
  class CreatorStore {
    var creators: seq<Creator>
    var familyCodes: seq<string>
    const hasher: string -> string
    ghost var queries: seq<Query>

    ghost predicate Valid()
      reads this
    {
      CodesDistinct(creators)
    }

    constructor (hasher: string -> string, creators: seq<Creator>, familyCodes: seq<string>)
      requires CodesDistinct(creators)
      ensures Valid()
      ensures this.hasher == hasher && this.creators == creators && this.familyCodes == familyCodes
      ensures queries == []
    {
      this.hasher := hasher;
      this.creators := creators;
      this.familyCodes := familyCodes;
      queries := [];
    }

    /** `checkDuplication`: two lookups, one per collection; nothing is written. */
    method CheckDuplication(code: string) returns (duplicate: bool)
      modifies this`queries
      ensures duplicate == Taken(creators, familyCodes, code)
      ensures creators == old(creators) && familyCodes == old(familyCodes)
      ensures queries == old(queries) + [FindCreator(code), FindFamily(code)]
    {
      var creator := FindOneByCode(creators, code);
      var family := FirstIndex(familyCodes, code);
      queries := queries + [FindCreator(code), FindFamily(code)];
      duplicate := creator.Some? || family.Some?;
    }

    /**
     * `register`: an invalid code fails before any lookup; a taken code fails
     * after the duplication check; otherwise a new unapproved record is built,
     * created at `now`, whose digest is that of `password`. `id` is the identity
     * the new document is given. Saving it fails the required check when the
     * name (or the digest) is empty; otherwise exactly this one record is added.
     */
    method Register(code: string, name: string, password: string, id: string, now: Date)
      returns (r: Result<Creator, Error>)
      requires Valid()
      modifies this`creators, this`queries
      ensures Valid()
      ensures familyCodes == old(familyCodes)
      ensures !IsCreatorCode(code) ==>
        r == Failure(InvalidCreatorCode) && creators == old(creators) && queries == old(queries)
      ensures IsCreatorCode(code) && Taken(old(creators), familyCodes, code) ==>
        && r == Failure(DuplicateCreatorCode)
        && creators == old(creators)
        && queries == old(queries) + [FindCreator(code), FindFamily(code)]
      ensures IsCreatorCode(code) && !Taken(old(creators), familyCodes, code) &&
              (name == "" || hasher(password) == "") ==>
        && r == Failure(ValidationError)
        && creators == old(creators)
        && queries == old(queries) + [FindCreator(code), FindFamily(code)]
      ensures IsCreatorCode(code) && !Taken(old(creators), familyCodes, code) &&
              name != "" && hasher(password) != "" ==>
        && r.Success?
        && r.value.id == id && r.value.code == code && r.value.name == name
        && !r.value.approved && r.value.createdDate == now && r.value.approvedDate == None
        && r.value.hash == hasher(password)
        && r.value.homepageUrl == None && r.value.twitterId == None
        && r.value.biography == None && r.value.authority == None
        && creators == old(creators) + [r.value]
        && queries == old(queries) + [FindCreator(code), FindFamily(code), Save(r.value)]
    {
      if !MatchesCodePattern(code) {
        return Failure(InvalidCreatorCode);
      }
      var duplicate := CheckDuplication(code);
      if duplicate {
        return Failure(DuplicateCreatorCode);
      }
      var approved := false;
      var createdDate := now;
      // The digest is unset until `encryptPassword` writes it.
      var user := Creator(id, code, name, None, None, None, None, "", approved, createdDate, None);
      user := EncryptPassword(hasher, user, password);
      if !RequiredPresent(user) {
        return Failure(ValidationError);
      }
      creators := creators + [user];
      queries := queries + [Save(user)];
      r := Success(user);
    }

    /** `authenticate`: one lookup by code, then the password check. */
    method Authenticate(code: string, password: string) returns (user: Option<Creator>)
      modifies this`queries
      ensures user == Authenticated(creators, hasher, code, password)
      ensures queries == old(queries) + [FindCreator(code)]
    {
      var found := FindOneByCode(creators, code);
      queries := queries + [FindCreator(code)];
      if found.Some? && ComparePassword(hasher, found.value, password) {
        user := found;
      } else {
        user := None;
      }
    }

    /** `fetchOneByCode`: one lookup by code. */
    method FetchOneByCode(code: string) returns (creator: Option<Creator>)
      modifies this`queries
      ensures creator == FindOneByCode(creators, code)
      ensures queries == old(queries) + [FindCreator(code)]
    {
      creator := FindOneByCode(creators, code);
      queries := queries + [FindCreator(code)];
    }

    /** Some document other than the one at `index` holds `code`. */
    ghost predicate HeldByOther(index: nat, code: string)
      reads this
    {
      exists j :: 0 <= j < |creators| && j != index && creators[j].code == code
    }

    /**
     * `changeInformations` on the document at `index`: every entry of
     * `informations` whose value is not `undefined` is written to its field,
     * then the document is saved. The save is refused by the required check
     * when `code`, `name` or `hash` is now empty, and by the unique index when
     * the written code belongs to another document.
     */
    method ChangeInformations(index: nat, informations: Patch) returns (r: Result<Creator, Error>)
      requires Valid()
      requires index < |creators|
      requires WellTyped(informations)
      modifies this`creators, this`queries
      ensures Valid()
      ensures familyCodes == old(familyCodes)
      ensures exists after ::
        && IsPatched(old(creators[index]), after, informations)
        && (if !RequiredPresent(after)
            then r == Failure(ValidationError) && creators == old(creators) && queries == old(queries)
            else if old(HeldByOther(index, after.code))
            then r == Failure(DuplicateKey) && creators == old(creators) && queries == old(queries) + [Save(after)]
            else r == Success(after) && creators == old(creators)[index := after] && queries == old(queries) + [Save(after)])
    {
      var doc := creators[index];
      ghost var before := doc;
      var pending := informations.Keys;
      while pending != {}
        invariant pending <= informations.Keys
        invariant doc.id == before.id
        invariant forall f :: Get(doc, f) == (if f in pending then Get(before, f) else Expected(before, informations, f))
        decreases pending
      {
        var key :| key in pending;
        var value := informations[key];
        if value.Some? {
          doc := Overwrite(doc, key, value.value);
        }
        pending := pending - {key};
      }
      assert IsPatched(before, doc, informations);
      if !RequiredPresent(doc) {
        return Failure(ValidationError);
      }
      queries := queries + [Save(doc)];
      if exists j :: 0 <= j < |creators| && j != index && creators[j].code == doc.code {
        r := Failure(DuplicateKey);
      } else {
        creators := creators[index := doc];
        r := Success(doc);
      }
    }
  }

  /**
   * A client of the store: registering, then authenticating with the same
   * password, with a password of another digest, and registering the same
   * code again.
   */
  method RegisterThenAuthenticate(store: CreatorStore, code: string, name: string, password: string,
                                  wrong: string, id: string, now: Date)
    returns (registered: Result<Creator, Error>, withPassword: Option<Creator>,
             withWrong: Option<Creator>, again: Result<Creator, Error>)
    requires store.Valid()
    requires store.hasher(wrong) != store.hasher(password)
    modifies store
    ensures registered.Success? ==>
      && withPassword == Some(registered.value)
      && withWrong == None
      && again == Failure(DuplicateCreatorCode)
  {
    ghost var existing := store.creators;
    registered := store.Register(code, name, password, id, now);
    withPassword := store.Authenticate(code, password);
    withWrong := store.Authenticate(code, wrong);
    if registered.Success? {
      assert store.creators == existing + [registered.value];
      AuthenticateAfterRegister(existing, store.hasher, registered.value, password, wrong);
    }
    again := store.Register(code, name, password, id, now);
    if registered.Success? {
      assert store.creators[|existing|].code == code;
    }
  }
}
