/**
 * `CreatorCreator.create`: the public, serialisable view of a creator
 * document. Dates are rendered by `iso`, the model of `Date.toISOString`.
 */
module CreatorCreator {
  import opened Wrappers
  import opened CreatorRecord

  /**
   * The view sent to clients. It has no digest field; the code and the name
   * appear both as scalars and as maps keyed by the role `"creator"`.
   */
  datatype CreatorView = CreatorView(
    id: string,
    kind: string,
    codes: map<string, string>,
    code: string,
    names: map<string, string>,
    name: string,
    homepageUrl: Option<string>,
    twitterId: Option<string>,
    biography: Option<string>,
    authority: Option<string>,
    approved: bool,
    createdDate: string,
    approvedDate: Option<string>)

  /** The view describes a creator and its keyed maps agree with its scalars. */
  predicate DualShape(v: CreatorView) {
    && v.kind == "creator"
    && v.codes.Keys == {"creator"} && v.codes["creator"] == v.code
    && v.names.Keys == {"creator"} && v.names["creator"] == v.name
  }

  function RenderOptional(iso: Date -> string, d: Option<Date>): Option<string> {
    match d
    case None => None
    case Some(date) => Some(iso(date))
  }

  /** `create(raw)`. */
  function Create(raw: Creator, iso: Date -> string): (v: CreatorView)
    ensures DualShape(v)
    ensures v.id == raw.id && v.code == raw.code && v.name == raw.name
    ensures v.homepageUrl == raw.homepageUrl && v.twitterId == raw.twitterId
    ensures v.biography == raw.biography && v.authority == raw.authority
    ensures v.approved == raw.approved
    ensures v.createdDate == iso(raw.createdDate)
    ensures v.approvedDate.None? <==> raw.approvedDate.None?
    ensures raw.approvedDate.Some? ==> v.approvedDate == Some(iso(raw.approvedDate.value))
  {
    var id := raw.id;
    var kind := "creator";
    var codes := map["creator" := raw.code];
    var code := raw.code;
    var names := map["creator" := raw.name];
    var name := raw.name;
    var createdDate := iso(raw.createdDate);
    var approvedDate := RenderOptional(iso, raw.approvedDate);
    CreatorView(id, kind, codes, code, names, name, raw.homepageUrl, raw.twitterId,
                raw.biography, raw.authority, raw.approved, createdDate, approvedDate)
  }

  /** The view does not depend on the digest: no information about the password leaks. */
  lemma CreateIgnoresHash(raw: Creator, digest: string, iso: Date -> string)
    ensures Create(raw.(hash := digest), iso) == Create(raw, iso)
  {
  }

  /**
   * The digest is all the view leaves out: when dates render distinctly, two
   * documents with the same view differ at most in their digests.
   */
  lemma CreateForgetsOnlyHash(a: Creator, b: Creator, iso: Date -> string)
    requires forall d, e :: iso(d) == iso(e) ==> d == e
    requires Create(a, iso) == Create(b, iso)
    ensures a.(hash := b.hash) == b
  {
  }
}
