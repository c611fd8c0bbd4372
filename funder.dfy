// The funder record and the id-keyed record set shared by the parser and the
// index builder.

module FunderModel {

  datatype Option<+T> = None | Some(value: T)

  /** Why a run stopped: an uncaught exception, or `sys.exit(status)`. */
  datatype Failure = Raised | Exit(status: int)

  datatype Result<+T> = Ok(value: T) | Err(failure: Failure)

  /** Prefix of every funder DOI (the Crossref Open Funder Registry prefix). */
  const DoiPrefix: string := "10.13039/"

  /** The `narrower` / `broader` field of a record: a list of raw ids while
      parsing, a map from id to the referenced record's name (None when that
      record has no name) once the index builder has resolved it. */
  datatype Refs =
    | Raw(ids: seq<string>)
    | Resolved(names: map<string, Option<string>>)

  /** One concept of the registry. The optional fields are absent until the
      matching element is seen. `state` and `geocountry` are copied from an
      `rdf:resource` attribute that may itself be missing, so they are present
      with value None in that case. */
  datatype Funder = Funder(
    id: string,
    doi: string,
    name: Option<string>,
    altnames: seq<string>,
    narrower: Refs,
    broader: Refs,
    fundingBodyType: Option<string>,
    fundingBodySubType: Option<string>,
    region: Option<string>,
    state: Option<Option<string>>,
    geocountry: Option<Option<string>>,
    countryCode: Option<string>,
    country: Option<string>)

  /** The record opened by a `skos:Concept` start tag. */
  function NewFunder(id: string): (f: Funder)
    ensures f.id == id && f.doi == DoiPrefix + id
    ensures f.altnames == [] && f.narrower == Raw([]) && f.broader == Raw([])
    ensures f.name == None && f.fundingBodyType == None && f.fundingBodySubType == None
    ensures f.region == None && f.state == None && f.geocountry == None
    ensures f.countryCode == None && f.country == None
  {
    Funder(id, DoiPrefix + id, None, [], Raw([]), Raw([]),
           None, None, None, None, None, None, None)
  }

  predicate Unresolved(f: Funder) {
    f.narrower.Raw? && f.broader.Raw?
  }

  /** The `items` dictionary: records keyed by id, together with the order in
      which the keys were first inserted (the order a dictionary iterates in). */
  datatype Registry = Registry(ids: seq<string>, byId: map<string, Funder>) {

    ghost predicate Valid() {
      (forall i, j :: 0 <= i < j < |ids| ==> ids[i] != ids[j]) &&
      (forall k :: k in byId <==> k in ids)
    }

    /** `items[id] = f`: a new key goes to the end of the order, an existing
        key keeps its place and gets the new record. */
    function Put(id: string, f: Funder): (r: Registry)
      requires Valid()
      ensures r.Valid()
      ensures r.byId == byId[id := f]
      ensures id in byId ==> r.ids == ids
      ensures id !in byId ==> r.ids == ids + [id]
    {
      if id in byId then Registry(ids, byId[id := f])
      else Registry(ids + [id], byId[id := f])
    }
  }

  const EmptyRegistry: Registry := Registry([], map[])

  /** Every record is filed under its own id and carries the DOI derived
      from that id. */
  ghost predicate FiledUnderOwnId(reg: Registry) {
    forall k :: k in reg.byId ==> reg.byId[k].id == k && reg.byId[k].doi == DoiPrefix + k
  }

  ghost predicate AllUnresolved(reg: Registry) {
    forall k :: k in reg.byId ==> Unresolved(reg.byId[k])
  }
}
