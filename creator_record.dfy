/**
 * The persisted creator document (the fields of `CreatorSchema`) and the
 * generic field write performed by `changeInformations`.
 */
module CreatorRecord {
  import opened Wrappers

  /** A JavaScript `Date`: milliseconds since the epoch. */
  datatype Date = Date(millis: int)

  /**
   * One document of the `creators` collection. `id` is the document's
   * generated identity; the optional profile fields and `approvedDate` are
   * `None` when they are unset.
   */
  datatype Creator = Creator(
    id: string,
    code: string,
    name: string,
    homepageUrl: Option<string>,
    twitterId: Option<string>,
    biography: Option<string>,
    authority: Option<string>,
    hash: string,
    approved: bool,
    createdDate: Date,
    approvedDate: Option<Date>)

  /**
   * The string fields the schema declares `required` are non-empty: mongoose's
   * required check refuses a save in which `code`, `name` or `hash` is `""`.
   */
  predicate RequiredPresent(c: Creator) {
    c.code != "" && c.name != "" && c.hash != ""
  }

  /** The schema's field names: the keys a patch may name. */
  datatype Field =
    | Code | Name | HomepageUrl | TwitterId | Biography | Authority
    | Hash | Approved | CreatedDate | ApprovedDate

  /** A value a patch may carry; `Null` is JavaScript's `null`. */
  datatype Value = Text(text: string) | Flag(flag: bool) | When(date: Date) | Null

  /** Whether `v` is a value of the schema type of `f` (`null` only for optional fields). */
  predicate Fits(f: Field, v: Value) {
    match f
    case Code | Name | Hash => v.Text?
    case HomepageUrl | TwitterId | Biography | Authority => v.Text? || v.Null?
    case Approved => v.Flag?
    case CreatedDate => v.When?
    case ApprovedDate => v.When? || v.Null?
  }

  function OptionalText(o: Option<string>): Value {
    match o
    case None => Null
    case Some(s) => Text(s)
  }

  function OptionalDate(o: Option<Date>): Value {
    match o
    case None => Null
    case Some(d) => When(d)
  }

  /** The value stored under field `f` of `c` (what `anyThis[key]` reads). */
  function Get(c: Creator, f: Field): (v: Value)
    ensures Fits(f, v)
  {
    match f
    case Code => Text(c.code)
    case Name => Text(c.name)
    case HomepageUrl => OptionalText(c.homepageUrl)
    case TwitterId => OptionalText(c.twitterId)
    case Biography => OptionalText(c.biography)
    case Authority => OptionalText(c.authority)
    case Hash => Text(c.hash)
    case Approved => Flag(c.approved)
    case CreatedDate => When(c.createdDate)
    case ApprovedDate => OptionalDate(c.approvedDate)
  }

  function ToOptionalText(v: Value): Option<string> {
    if v.Text? then Some(v.text) else None
  }

  function ToOptionalDate(v: Value): Option<Date> {
    if v.When? then Some(v.date) else None
  }

  /**
   * The single assignment `anyThis[key] = value` of `changeInformations`:
   * field `f` now reads `v`, every other field and the identity read as before.
   */
  function Overwrite(c: Creator, f: Field, v: Value): (r: Creator)
    requires Fits(f, v)
    ensures r.id == c.id
    ensures Get(r, f) == v
    ensures forall g :: g != f ==> Get(r, g) == Get(c, g)
  {
    match f
    case Code => c.(code := v.text)
    case Name => c.(name := v.text)
    case HomepageUrl => c.(homepageUrl := ToOptionalText(v))
    case TwitterId => c.(twitterId := ToOptionalText(v))
    case Biography => c.(biography := ToOptionalText(v))
    case Authority => c.(authority := ToOptionalText(v))
    case Hash => c.(hash := v.text)
    case Approved => c.(approved := v.flag)
    case CreatedDate => c.(createdDate := v.date)
    case ApprovedDate => c.(approvedDate := ToOptionalDate(v))
  }

  /** Two documents with the same identity that read alike on every field are the same document. */
  lemma Extensionality(a: Creator, b: Creator)
    requires a.id == b.id
    requires forall f :: Get(a, f) == Get(b, f)
    ensures a == b
  {
    assert Get(a, Code) == Get(b, Code) && Get(a, Name) == Get(b, Name);
    assert Get(a, HomepageUrl) == Get(b, HomepageUrl) && Get(a, TwitterId) == Get(b, TwitterId);
    assert Get(a, Biography) == Get(b, Biography) && Get(a, Authority) == Get(b, Authority);
    assert Get(a, Hash) == Get(b, Hash) && Get(a, Approved) == Get(b, Approved);
    assert Get(a, CreatedDate) == Get(b, CreatedDate) && Get(a, ApprovedDate) == Get(b, ApprovedDate);
  }

  /**
   * The argument of `changeInformations`: an object whose entries map keys to
   * values, where an entry `None` is a key whose value is `undefined`.
   */
  type Patch = map<Field, Option<Value>>

  /** Every value the patch carries has its field's schema type. */
  predicate WellTyped(p: Patch) {
    forall f :: f in p && p[f].Some? ==> Fits(f, p[f].value)
  }

  /** What field `f` reads after applying `p` to `before`. */
  function Expected(before: Creator, p: Patch, f: Field): Value {
    if f in p && p[f].Some? then p[f].value else Get(before, f)
  }

  /**
   * `after` is `before` with `p` applied: each field the patch gives a value
   * (any field, `hash`, `approved` and the dates included) now holds it; the
   * fields the patch leaves out or sets to `undefined` hold their old value.
   */
  ghost predicate IsPatched(before: Creator, after: Creator, p: Patch) {
    after.id == before.id && forall f :: Get(after, f) == Expected(before, p, f)
  }

  /** Applying a patch has exactly one outcome. */
  lemma PatchDeterministic(before: Creator, after1: Creator, after2: Creator, p: Patch)
    requires IsPatched(before, after1, p) && IsPatched(before, after2, p)
    ensures after1 == after2
  {
    Extensionality(after1, after2);
  }

  /** Applying the same patch twice gives the same document as applying it once. */
  lemma PatchIdempotent(before: Creator, once: Creator, twice: Creator, p: Patch)
    requires IsPatched(before, once, p)
    requires IsPatched(once, twice, p)
    ensures twice == once
  {
    forall f ensures Get(twice, f) == Get(once, f) {
      assert Get(twice, f) == Expected(once, p, f);
    }
    Extensionality(twice, once);
  }

  /** A patch with no present value leaves the document as it was. */
  lemma UndefinedPatchIsIdentity(before: Creator, after: Creator, p: Patch)
    requires forall f :: f in p ==> p[f].None?
    requires IsPatched(before, after, p)
    ensures after == before
  {
    forall f ensures Get(after, f) == Get(before, f) {
      assert Get(after, f) == Expected(before, p, f);
    }
    Extensionality(after, before);
  }
}
