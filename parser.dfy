// The SAX handler that turns the funder registry RDF into the id-keyed record
// set, and the integrity check that follows the parse.
//
// The handler's step functions (StartStep, CharsStep, EndStep) describe one
// event each on a HandlerState value; the class FunderHandler updates its
// fields in place and is proved to agree with them; ParseRdf feeds an event
// sequence to a FunderHandler and checks the top concepts.

module FunderParser {
  import opened FunderModel
  import opened Text

  /** A SAX event: a start tag with its attributes, a run of characters, an
      end tag. Names are qualified names such as "skos:Concept". */
  datatype Event =
    | Start(name: string, attrs: map<string, string>)
    | Chars(text: string)
    | End(name: string)

  /** The tags the handler acts on. */
  datatype Tag =
    | HasTopConcept | Concept | LiteralForm | PrefLabel | AltLabel
    | Broader | Narrower | FundingBodyType | FundingBodySubType
    | State | Region | AddressCountry | Country
    | Other

  /** The `Tag` enumeration's values: the qualified name of each recognised
      tag. */
  const TagNames: map<string, Tag> := map[
    "skos:hasTopConcept" := HasTopConcept,
    "skos:Concept" := Concept,
    "skosxl:literalForm" := LiteralForm,
    "skosxl:prefLabel" := PrefLabel,
    "skosxl:altLabel" := AltLabel,
    "skos:broader" := Broader,
    "skos:narrower" := Narrower,
    "svf:fundingBodyType" := FundingBodyType,
    "svf:fundingBodySubType" := FundingBodySubType,
    "svf:state" := State,
    "svf:region" := Region,
    "schema:addressCountry" := AddressCountry,
    "svf:country" := Country]

  /** The tag a qualified name compares equal to, or Other. */
  function TagOf(name: string): Tag {
    if name in TagNames then TagNames[name] else Other
  }

  /** The qualified name each recognised tag stands for. */
  function TagName(t: Tag): string
    requires t != Other
  {
    match t
    case HasTopConcept => "skos:hasTopConcept"
    case Concept => "skos:Concept"
    case LiteralForm => "skosxl:literalForm"
    case PrefLabel => "skosxl:prefLabel"
    case AltLabel => "skosxl:altLabel"
    case Broader => "skos:broader"
    case Narrower => "skos:narrower"
    case FundingBodyType => "svf:fundingBodyType"
    case FundingBodySubType => "svf:fundingBodySubType"
    case State => "svf:state"
    case Region => "svf:region"
    case AddressCountry => "schema:addressCountry"
    case Country => "svf:country"
  }

  /** Each recognised tag is recognised from its own name ... */
  lemma TagOfTagName(t: Tag)
    requires t != Other
    ensures TagOf(TagName(t)) == t
  {
  }

  /** ... and from no other: every name that is not one of them is Other. */
  lemma TagNameTagOf(name: string)
    ensures TagOf(name) != Other ==> TagName(TagOf(name)) == name
  {
  }

  /** Country name recorded when the code is not in the country map. */
  const UnknownCountry: string := "unknown"

  /** `uri.split('/')[-1]`: the part of `uri` after its last '/', or all of
      `uri` when it has none. */
  function IdFromUri(uri: string): string
  {
    if uri == [] || uri[|uri| - 1] == '/' then []
    else IdFromUri(uri[..|uri| - 1]) + [uri[|uri| - 1]]
  }

  /** The id is the longest '/'-free suffix of the URI: it contains no '/',
      it ends the URI, and whatever precedes it ends in '/'. */
  lemma {:induction false} IdFromUriIsLastSegment(uri: string)
    ensures var r := IdFromUri(uri);
      '/' !in r && |r| <= |uri| && r == uri[|uri| - |r|..] &&
      (|r| < |uri| ==> uri[|uri| - |r| - 1] == '/')
  {
    if uri != [] && uri[|uri| - 1] != '/' {
      var init := uri[..|uri| - 1];
      IdFromUriIsLastSegment(init);
      var r0, c := IdFromUri(init), uri[|uri| - 1];
      assert IdFromUri(uri) == r0 + [c];
      assert forall k :: 0 <= k < |r0| ==> r0[k] != '/';
      assert init[|init| - |r0|..] + [c] == uri[|uri| - |r0| - 1..];
      if |r0| < |init| {
        assert uri[|uri| - |r0| - 2] == init[|init| - |r0| - 1];
      }
    }
  }

  /** The id is recovered from any URI that ends in "/" + id; in particular
      from the DOI of a record (DoiPrefix ends in '/'). */
  lemma {:induction false} IdFromUriAfterSlash(prefix: string, id: string)
    requires '/' !in id
    ensures IdFromUri(prefix + "/" + id) == id
  {
    var uri := prefix + "/" + id;
    if id != [] {
      var init := id[..|id| - 1];
      assert uri[..|uri| - 1] == prefix + "/" + init;
      assert uri[|uri| - 1] == id[|id| - 1];
      IdFromUriAfterSlash(prefix, init);
      assert init + [id[|id| - 1]] == id;
    }
  }

  lemma IdFromDoi(id: string)
    requires '/' !in id
    ensures IdFromUri(DoiPrefix + id) == id
  {
    assert DoiPrefix + id == "10.13039" + "/" + id;
    IdFromUriAfterSlash("10.13039", id);
  }

  /** Everything the handler keeps: the cursor record, the tag most recently
      opened, the two label flags, the text buffer, and the shared `data`
      dictionary (`existing` top-concept ids and the `items` record set). */
  datatype HandlerState = HandlerState(
    item: Option<Funder>,
    currentTag: Option<string>,
    inAltLabel: bool,
    inPrefLabel: bool,
    content: string,
    existing: seq<string>,
    items: Registry)

  const Initial: HandlerState :=
    HandlerState(None, None, false, false, "", [], EmptyRegistry)

  /** What every reachable state satisfies: the record set is a well-formed
      dictionary, no relation has been resolved yet, and every record (the
      one being built included) is filed under its own id with the DOI
      derived from it. */
  ghost predicate Inv(s: HandlerState) {
    s.items.Valid() && AllUnresolved(s.items) && FiledUnderOwnId(s.items) &&
    (s.item.Some? ==> Unresolved(s.item.value) && s.item.value.doi == DoiPrefix + s.item.value.id)
  }

  /** `attrs.get(key)`. */
  function GetAttr(attrs: map<string, string>, key: string): Option<string> {
    if key in attrs then Some(attrs[key]) else None
  }

  /** `startElement(name, attrs)`; None where the handler raises (a missing
      id attribute, or a relation or resource tag outside any concept). */
  function StartStep(s: HandlerState, name: string, attrs: map<string, string>): (r: Option<HandlerState>)
    requires Inv(s)
    ensures r.Some? ==> Inv(r.value) && r.value.currentTag == Some(name)
  {
    var s := s.(currentTag := Some(name));
    match TagOf(name)
    case HasTopConcept =>
      if "rdf:resource" !in attrs then None
      else Some(s.(existing := s.existing + [IdFromUri(attrs["rdf:resource"])]))
    case Concept =>
      if "rdf:about" !in attrs then None
      else Some(s.(item := Some(NewFunder(IdFromUri(attrs["rdf:about"])))))
    case Broader =>
      if s.item.None? || "rdf:resource" !in attrs then None
      else
        var f := s.item.value;
        Some(s.(item := Some(f.(broader := Raw(f.broader.ids + [IdFromUri(attrs["rdf:resource"])])))))
    case Narrower =>
      if s.item.None? || "rdf:resource" !in attrs then None
      else
        var f := s.item.value;
        Some(s.(item := Some(f.(narrower := Raw(f.narrower.ids + [IdFromUri(attrs["rdf:resource"])])))))
    case State =>
      if s.item.None? then None
      else Some(s.(item := Some(s.item.value.(state := Some(GetAttr(attrs, "rdf:resource"))))))
    case PrefLabel => Some(s.(inPrefLabel := true))
    case AltLabel => Some(s.(inAltLabel := true))
    case Country =>
      if s.item.None? then None
      else Some(s.(item := Some(s.item.value.(geocountry := Some(GetAttr(attrs, "rdf:resource"))))))
    case _ => Some(s)
  }

  /** `characters(text)`: the fragment is appended to the buffer. */
  function CharsStep(s: HandlerState, text: string): (r: HandlerState)
    ensures r.content == s.content + text
    ensures r.(content := s.content) == s
  {
    s.(content := s.content + text)
  }

  /** `country_map.get(code, 'unknown')`. */
  function CountryName(countryMap: map<string, string>, code: string): (r: string)
    ensures code in countryMap ==> r == countryMap[code]
    ensures code !in countryMap ==> r == UnknownCountry
  {
    if code in countryMap then countryMap[code] else UnknownCountry
  }

  /** First half of `endElement`: closing a concept files the cursor record
      under its id and clears the cursor (raising when there is none);
      closing a label clears its flag. */
  function CloseElement(s: HandlerState, name: string): (r: Option<HandlerState>)
    requires Inv(s)
    ensures r.Some? ==> Inv(r.value)
  {
    if name == "skos:Concept" then
      if s.item.None? then None
      else Some(s.(items := s.items.Put(s.item.value.id, s.item.value), item := None))
    else if TagOf(name) == PrefLabel then Some(s.(inPrefLabel := false))
    else if TagOf(name) == AltLabel then Some(s.(inAltLabel := false))
    else Some(s)
  }

  /** Second half of `endElement`: route the stripped text by the tag most
      recently opened and the label flags; raising when a field has to be
      written and there is no cursor record. */
  function StoreText(s: HandlerState, text: string, countryMap: map<string, string>): (r: Option<HandlerState>)
    requires Inv(s)
    ensures r.Some? ==> Inv(r.value)
  {
    var tag := if s.currentTag.Some? then TagOf(s.currentTag.value) else Other;
    if tag == LiteralForm && s.inAltLabel then
      if s.item.None? then None
      else Some(s.(item := Some(s.item.value.(altnames := s.item.value.altnames + [text]))))
    else if tag == LiteralForm && s.inPrefLabel then
      if s.item.None? then None
      else Some(s.(item := Some(s.item.value.(name := Some(text)))))
    else if tag == FundingBodyType then
      if s.item.None? then None
      else Some(s.(item := Some(s.item.value.(fundingBodyType := Some(text)))))
    else if tag == FundingBodySubType then
      if s.item.None? then None
      else Some(s.(item := Some(s.item.value.(fundingBodySubType := Some(text)))))
    else if tag == Region then
      if s.item.None? then None
      else Some(s.(item := Some(s.item.value.(region := Some(text)))))
    else if tag == AddressCountry then
      if s.item.None? then None
      else Some(s.(item := Some(s.item.value.(countryCode := Some(text),
                                              country := Some(CountryName(countryMap, text))))))
    else Some(s)
  }

  /** `endElement(name)`: strip the buffer, close the element, store the
      text, then forget the current tag and empty the buffer. */
  function EndStep(s: HandlerState, name: string, countryMap: map<string, string>): (r: Option<HandlerState>)
    requires Inv(s)
    ensures r.Some? ==> Inv(r.value) && r.value.content == "" && r.value.currentTag == None
  {
    match CloseElement(s.(content := Strip(s.content)), name)
    case None => None
    case Some(s1) =>
      match StoreText(s1, s1.content, countryMap)
      case None => None
      case Some(s2) => Some(s2.(currentTag := None, content := ""))
  }

  function Step(s: HandlerState, e: Event, countryMap: map<string, string>): (r: Option<HandlerState>)
    requires Inv(s)
    ensures r.Some? ==> Inv(r.value)
  {
    match e
    case Start(name, attrs) => StartStep(s, name, attrs)
    case Chars(text) => Some(CharsStep(s, text))
    case End(name) => EndStep(s, name, countryMap)
  }

  /** The state after feeding `events` to the handler from `s`, or None if
      some event raised. */
  function Run(s: HandlerState, events: seq<Event>, countryMap: map<string, string>): (r: Option<HandlerState>)
    requires Inv(s)
    ensures r.Some? ==> Inv(r.value)
    decreases |events|
  {
    if events == [] then Some(s)
    else
      match Run(s, events[..|events| - 1], countryMap)
      case None => None
      case Some(t) => Step(t, events[|events| - 1], countryMap)
  }

  // ---------------------------------------------------------------------
  // Properties of single events

  /** Opening a concept starts a fresh record for the id after the last '/'
      of `rdf:about`, with its DOI and empty lists; without `rdf:about` the
      handler raises. Nothing else but the current tag changes. */
  lemma ConceptStartOpensRecord(s: HandlerState, attrs: map<string, string>)
    requires Inv(s)
    ensures "rdf:about" !in attrs ==> StartStep(s, "skos:Concept", attrs) == None
    ensures "rdf:about" in attrs ==>
      var id := IdFromUri(attrs["rdf:about"]);
      var r := StartStep(s, "skos:Concept", attrs);
      r.Some? && r.value.item.Some? &&
      r.value.item.value.id == id && r.value.item.value.doi == DoiPrefix + id &&
      r.value.item.value.altnames == [] &&
      r.value.item.value.narrower == Raw([]) && r.value.item.value.broader == Raw([]) &&
      r.value == s.(currentTag := Some("skos:Concept"), item := Some(NewFunder(id)))
  {
    assert TagOf("skos:Concept") == Concept;
  }

  /** `skos:broader` appends exactly one id to the end of the cursor's
      broader list; the narrower list, the other fields and the rest of the
      state are unchanged. Outside a concept, or without `rdf:resource`, it
      raises. */
  lemma BroaderStartAppends(s: HandlerState, attrs: map<string, string>)
    requires Inv(s)
    ensures (s.item.None? || "rdf:resource" !in attrs) ==> StartStep(s, "skos:broader", attrs) == None
    ensures s.item.Some? && "rdf:resource" in attrs ==>
      var f := s.item.value;
      var r := StartStep(s, "skos:broader", attrs);
      r.Some? && r.value.item.Some? &&
      r.value.item.value.broader.ids == f.broader.ids + [IdFromUri(attrs["rdf:resource"])] &&
      r.value.item.value.(broader := f.broader) == f &&
      r.value.(item := s.item) == s.(currentTag := Some("skos:broader"))
  {
    assert TagOf("skos:broader") == Broader;
  }

  /** The same for `skos:narrower`. */
  lemma NarrowerStartAppends(s: HandlerState, attrs: map<string, string>)
    requires Inv(s)
    ensures (s.item.None? || "rdf:resource" !in attrs) ==> StartStep(s, "skos:narrower", attrs) == None
    ensures s.item.Some? && "rdf:resource" in attrs ==>
      var f := s.item.value;
      var r := StartStep(s, "skos:narrower", attrs);
      r.Some? && r.value.item.Some? &&
      r.value.item.value.narrower.ids == f.narrower.ids + [IdFromUri(attrs["rdf:resource"])] &&
      r.value.item.value.(narrower := f.narrower) == f &&
      r.value.(item := s.item) == s.(currentTag := Some("skos:narrower"))
  {
    assert TagOf("skos:narrower") == Narrower;
  }

  /** `svf:state` and `svf:country` take the raw `rdf:resource` value (None
      when absent) at start-tag time; `svf:country` is stored as `geocountry`.
      Outside a concept both raise. */
  lemma ResourceFieldsAtStart(s: HandlerState, attrs: map<string, string>)
    requires Inv(s)
    ensures s.item.None? ==> StartStep(s, "svf:state", attrs) == None
    ensures s.item.None? ==> StartStep(s, "svf:country", attrs) == None
    ensures s.item.Some? ==>
      StartStep(s, "svf:state", attrs) ==
        Some(s.(currentTag := Some("svf:state"),
                item := Some(s.item.value.(state := Some(GetAttr(attrs, "rdf:resource"))))))
    ensures s.item.Some? ==>
      StartStep(s, "svf:country", attrs) ==
        Some(s.(currentTag := Some("svf:country"),
                item := Some(s.item.value.(geocountry := Some(GetAttr(attrs, "rdf:resource"))))))
  {
    assert TagOf("svf:state") == State;
    assert TagOf("svf:country") == Country;
  }

  /** `skos:hasTopConcept` appends the id after the last '/' of its
      `rdf:resource` to the top-concept list and changes nothing else but the
      current tag; without `rdf:resource` it raises. */
  lemma TopConceptStart(s: HandlerState, attrs: map<string, string>)
    requires Inv(s)
    ensures "rdf:resource" !in attrs ==> StartStep(s, "skos:hasTopConcept", attrs) == None
    ensures "rdf:resource" in attrs ==>
      StartStep(s, "skos:hasTopConcept", attrs) ==
        Some(s.(currentTag := Some("skos:hasTopConcept"),
                existing := s.existing + [IdFromUri(attrs["rdf:resource"])]))
  {
    assert TagOf("skos:hasTopConcept") == HasTopConcept;
  }

  /** Opening a preferred or alternate label sets its flag and nothing else
      but the current tag; it never raises, inside a concept or not. */
  lemma LabelStartSetsFlag(s: HandlerState, attrs: map<string, string>)
    requires Inv(s)
    ensures StartStep(s, "skosxl:prefLabel", attrs) ==
      Some(s.(currentTag := Some("skosxl:prefLabel"), inPrefLabel := true))
    ensures StartStep(s, "skosxl:altLabel", attrs) ==
      Some(s.(currentTag := Some("skosxl:altLabel"), inAltLabel := true))
  {
    assert TagOf("skosxl:prefLabel") == PrefLabel;
    assert TagOf("skosxl:altLabel") == AltLabel;
  }

  /** Closing a preferred or alternate label clears its flag and nothing
      else. */
  lemma LabelCloseClearsFlag(s: HandlerState)
    requires Inv(s)
    ensures CloseElement(s, "skosxl:prefLabel") == Some(s.(inPrefLabel := false))
    ensures CloseElement(s, "skosxl:altLabel") == Some(s.(inAltLabel := false))
  {
    assert TagOf("skosxl:prefLabel") == PrefLabel;
    assert TagOf("skosxl:altLabel") == AltLabel;
  }

  /** The whole end tag of a label whose content has already been routed
      (no current tag, or the label itself for an empty one): the flag is
      cleared, the buffer emptied, and nothing else changes. */
  lemma LabelEndClearsFlag(s: HandlerState, countryMap: map<string, string>)
    requires Inv(s)
    requires s.currentTag == None || s.currentTag == Some("skosxl:prefLabel")
    ensures EndStep(s, "skosxl:prefLabel", countryMap) ==
      Some(s.(inPrefLabel := false, currentTag := None, content := ""))
  {
    var t := s.(content := Strip(s.content));
    LabelCloseClearsFlag(t);
    assert TagOf("skosxl:prefLabel") == PrefLabel;
    StoreTextSkips(t.(inPrefLabel := false), Strip(s.content), countryMap);
  }

  /** Closing any element other than a concept or a label changes nothing
      in the first half of `endElement`. */
  lemma CloseElementSkips(s: HandlerState, name: string)
    requires Inv(s) && name != "skos:Concept" && TagOf(name) != PrefLabel && TagOf(name) != AltLabel
    ensures CloseElement(s, name) == Some(s)
  {
  }

  /** Text under no current tag, or under a tag that carries no field, is
      stored nowhere. */
  lemma StoreTextSkips(s: HandlerState, text: string, countryMap: map<string, string>)
    requires Inv(s)
    requires s.currentTag.Some? ==>
      TagOf(s.currentTag.value) !in {LiteralForm, FundingBodyType, FundingBodySubType, Region, AddressCountry}
    ensures StoreText(s, text, countryMap) == Some(s)
  {
  }

  /** Closing `skosxl:literalForm` inside a concept: inside an alternate
      label the stripped text is appended to `altnames` (even when a
      preferred label is open too); otherwise inside a preferred label it
      replaces `name`; otherwise the record is unchanged. Outside a concept
      it raises inside either label and is a no-op outside both. */
  lemma LiteralFormEnd(s: HandlerState, countryMap: map<string, string>)
    requires Inv(s)
    requires s.currentTag == Some("skosxl:literalForm")
    ensures s.item.None? ==>
      EndStep(s, "skosxl:literalForm", countryMap) ==
        (if s.inAltLabel || s.inPrefLabel then None else Some(s.(currentTag := None, content := "")))
    ensures s.item.Some? ==>
      var f := s.item.value;
      var text := Strip(s.content);
      var r := EndStep(s, "skosxl:literalForm", countryMap);
      r.Some? && r.value.item.Some? &&
      r.value.item.value ==
        (if s.inAltLabel then f.(altnames := f.altnames + [text])
         else if s.inPrefLabel then f.(name := Some(text))
         else f) &&
      r.value == s.(item := r.value.item, currentTag := None, content := "")
  {
    assert TagOf("skosxl:literalForm") == LiteralForm;
    CloseElementSkips(s.(content := Strip(s.content)), "skosxl:literalForm");
  }

  /** Closing `schema:addressCountry` inside a concept records the stripped
      text as `country_code` and its map entry, or "unknown", as `country`:
      an unmapped code never makes it fail. Outside a concept it raises. */
  lemma AddressCountryEnd(s: HandlerState, countryMap: map<string, string>)
    requires Inv(s)
    requires s.currentTag == Some("schema:addressCountry")
    ensures s.item.None? ==> EndStep(s, "schema:addressCountry", countryMap) == None
    ensures s.item.Some? ==>
      var f := s.item.value;
      var code := Strip(s.content);
      var r := EndStep(s, "schema:addressCountry", countryMap);
      r.Some? && r.value.item.Some? &&
      r.value.item.value == f.(countryCode := Some(code),
                               country := Some(if code in countryMap then countryMap[code] else "unknown")) &&
      r.value == s.(item := r.value.item, currentTag := None, content := "")
  {
    assert TagOf("schema:addressCountry") == AddressCountry;
    CloseElementSkips(s.(content := Strip(s.content)), "schema:addressCountry");
  }

  /** Closing `svf:fundingBodyType` inside a concept stores the stripped
      text as the body type; outside a concept it raises. */
  lemma FundingBodyTypeEnd(s: HandlerState, countryMap: map<string, string>)
    requires Inv(s) && s.currentTag == Some("svf:fundingBodyType")
    ensures s.item.None? ==> EndStep(s, "svf:fundingBodyType", countryMap) == None
    ensures s.item.Some? ==>
      EndStep(s, "svf:fundingBodyType", countryMap) ==
        Some(s.(item := Some(s.item.value.(fundingBodyType := Some(Strip(s.content)))),
                currentTag := None, content := ""))
  {
    assert TagOf("svf:fundingBodyType") == FundingBodyType;
    CloseElementSkips(s.(content := Strip(s.content)), "svf:fundingBodyType");
  }

  /** The same for `svf:fundingBodySubType` and the body subtype. */
  lemma FundingBodySubTypeEnd(s: HandlerState, countryMap: map<string, string>)
    requires Inv(s) && s.currentTag == Some("svf:fundingBodySubType")
    ensures s.item.None? ==> EndStep(s, "svf:fundingBodySubType", countryMap) == None
    ensures s.item.Some? ==>
      EndStep(s, "svf:fundingBodySubType", countryMap) ==
        Some(s.(item := Some(s.item.value.(fundingBodySubType := Some(Strip(s.content)))),
                currentTag := None, content := ""))
  {
    assert TagOf("svf:fundingBodySubType") == FundingBodySubType;
    CloseElementSkips(s.(content := Strip(s.content)), "svf:fundingBodySubType");
  }

  /** The same for `svf:region`. */
  lemma RegionEnd(s: HandlerState, countryMap: map<string, string>)
    requires Inv(s) && s.currentTag == Some("svf:region")
    ensures s.item.None? ==> EndStep(s, "svf:region", countryMap) == None
    ensures s.item.Some? ==>
      EndStep(s, "svf:region", countryMap) ==
        Some(s.(item := Some(s.item.value.(region := Some(Strip(s.content)))),
                currentTag := None, content := ""))
  {
    assert TagOf("svf:region") == Region;
    CloseElementSkips(s.(content := Strip(s.content)), "svf:region");
  }

  /** Closing a concept, after its children or with none at all, files the
      record under its id (replacing an earlier record with that id, whose
      place in the order is kept) and clears the cursor. Without a cursor it
      raises. */
  lemma ConceptEndStores(s: HandlerState, countryMap: map<string, string>)
    requires Inv(s) && (s.currentTag == None || s.currentTag == Some("skos:Concept"))
    ensures s.item.None? ==> EndStep(s, "skos:Concept", countryMap) == None
    ensures s.item.Some? ==>
      var f := s.item.value;
      var r := EndStep(s, "skos:Concept", countryMap);
      r.Some? && r.value.item == None &&
      r.value.items.byId == s.items.byId[f.id := f] &&
      r.value.items.ids == (if f.id in s.items.byId then s.items.ids else s.items.ids + [f.id]) &&
      r.value.existing == s.existing
    ensures s.item.Some? ==>
      var f := s.item.value;
      EndStep(s, "skos:Concept", countryMap) ==
        Some(s.(items := s.items.Put(f.id, f), item := None, currentTag := None, content := ""))
  {
    var t := s.(content := Strip(s.content));
    assert TagOf("skos:Concept") == Concept;
    if s.item.Some? {
      var closed := CloseElement(t, "skos:Concept").value;
      StoreTextSkips(closed, closed.content, countryMap);
    } else {
      assert CloseElement(t, "skos:Concept") == None;
    }
  }

  // ---------------------------------------------------------------------
  // Properties of event sequences

  /** Running `a + b` is running `a` and then `b`. */
  lemma {:induction false} RunAppend(s: HandlerState, a: seq<Event>, b: seq<Event>, countryMap: map<string, string>)
    requires Inv(s)
    ensures Run(s, a + b, countryMap) ==
      (match Run(s, a, countryMap)
       case None => None
       case Some(t) => Run(t, b, countryMap))
    decreases |b|
  {
    if b == [] {
      assert a + b == a;
    } else {
      var b' := b[..|b| - 1];
      assert (a + b)[..|a + b| - 1] == a + b';
      assert (a + b)[|a + b| - 1] == b[|b| - 1];
      RunAppend(s, a, b', countryMap);
    }
  }

  /** Once an event has raised, no later event brings the parse back. */
  lemma RunFailureSticks(s: HandlerState, events: seq<Event>, k: nat, countryMap: map<string, string>)
    requires Inv(s) && k <= |events| && Run(s, events[..k], countryMap).None?
    ensures Run(s, events, countryMap).None?
  {
    assert events[..k] + events[k..] == events;
    RunAppend(s, events[..k], events[k..], countryMap);
  }

  function CharsEvents(fragments: seq<string>): seq<Event> {
    seq(|fragments|, i requires 0 <= i < |fragments| => Chars(fragments[i]))
  }

  function Concat(fragments: seq<string>): string {
    if fragments == [] then ""
    else Concat(fragments[..|fragments| - 1]) + fragments[|fragments| - 1]
  }

  /** Character fragments accumulate: after any run of them the buffer holds
      its old contents followed by every fragment in order, and nothing else
      has changed. */
  lemma {:induction false} CharsAccumulate(s: HandlerState, fragments: seq<string>, countryMap: map<string, string>)
    requires Inv(s)
    ensures Run(s, CharsEvents(fragments), countryMap) ==
      Some(s.(content := s.content + Concat(fragments)))
  {
    if fragments != [] {
      var init := fragments[..|fragments| - 1];
      var last := fragments[|fragments| - 1];
      var events := CharsEvents(fragments);
      assert events[..|events| - 1] == CharsEvents(init);
      assert events[|events| - 1] == Chars(last);
      CharsAccumulate(s, init, countryMap);
      assert s.content + Concat(init) + last == s.content + Concat(fragments);
    } else {
      assert s.content + Concat(fragments) == s.content;
    }
  }

  // ---------------------------------------------------------------------
  // The handler object

  /** `FunderHandler`: the fields the SAX callbacks update in place. */
  class FunderHandler {
    var item: Option<Funder>
    var currentTag: Option<string>
    var inAltLabel: bool
    var inPrefLabel: bool
    var content: string
    var existing: seq<string>
    var items: Registry
    const countryMap: map<string, string>

    function Snapshot(): HandlerState
      reads this
    {
      HandlerState(item, currentTag, inAltLabel, inPrefLabel, content, existing, items)
    }

    ghost predicate Valid()
      reads this
    {
      Inv(Snapshot())
    }

    constructor (countryMap: map<string, string>)
      ensures Valid() && Snapshot() == Initial && this.countryMap == countryMap
    {
      this.countryMap := countryMap;
      item := None;
      currentTag := None;
      inAltLabel := false;
      inPrefLabel := false;
      content := "";
      existing := [];
      items := EmptyRegistry;
    }

    method StartElement(name: string, attrs: map<string, string>) returns (ok: bool)
      requires Valid()
      modifies this
      ensures ok == StartStep(old(Snapshot()), name, attrs).Some?
      ensures ok ==> Snapshot() == StartStep(old(Snapshot()), name, attrs).value
    {
      currentTag := Some(name);
      ok := true;
      match TagOf(name)
      case HasTopConcept =>
        if "rdf:resource" in attrs {
          existing := existing + [IdFromUri(attrs["rdf:resource"])];
        } else {
          ok := false;
        }
      case Concept =>
        if "rdf:about" in attrs {
          item := Some(NewFunder(IdFromUri(attrs["rdf:about"])));
        } else {
          ok := false;
        }
      case Broader =>
        if item.Some? && "rdf:resource" in attrs {
          var f := item.value;
          item := Some(f.(broader := Raw(f.broader.ids + [IdFromUri(attrs["rdf:resource"])])));
        } else {
          ok := false;
        }
      case Narrower =>
        if item.Some? && "rdf:resource" in attrs {
          var f := item.value;
          item := Some(f.(narrower := Raw(f.narrower.ids + [IdFromUri(attrs["rdf:resource"])])));
        } else {
          ok := false;
        }
      case State =>
        if item.Some? {
          item := Some(item.value.(state := Some(GetAttr(attrs, "rdf:resource"))));
        } else {
          ok := false;
        }
      case PrefLabel =>
        inPrefLabel := true;
      case AltLabel =>
        inAltLabel := true;
      case Country =>
        if item.Some? {
          item := Some(item.value.(geocountry := Some(GetAttr(attrs, "rdf:resource"))));
        } else {
          ok := false;
        }
      case _ =>
    }

    method Characters(text: string)
      requires Valid()
      modifies this
      ensures Valid() && Snapshot() == CharsStep(old(Snapshot()), text)
    {
      content := content + text;
    }

    /** `endElement(name)`. */
    method EndElement(name: string) returns (ok: bool)
      requires Valid()
      modifies this
      ensures ok == EndStep(old(Snapshot()), name, countryMap).Some?
      ensures ok ==> Valid() && Snapshot() == EndStep(old(Snapshot()), name, countryMap).value
      ensures ok ==> content == "" && currentTag == None
    {
      content := Strip(content);
      ok := CloseCurrent(name);
      if !ok {
        return;
      }
      ok := StoreContent();
      if !ok {
        return;
      }
      currentTag := None;
      content := "";
    }

    /** The first `if` chain of `endElement`. */
    method CloseCurrent(name: string) returns (ok: bool)
      requires Valid()
      modifies this
      ensures ok == CloseElement(old(Snapshot()), name).Some?
      ensures ok ==> Valid() && Snapshot() == CloseElement(old(Snapshot()), name).value
    {
      ok := true;
      if name == "skos:Concept" {
        if item.Some? {
          items := items.Put(item.value.id, item.value);
          item := None;
        } else {
          ok := false;
        }
      } else if TagOf(name) == PrefLabel {
        inPrefLabel := false;
      } else if TagOf(name) == AltLabel {
        inAltLabel := false;
      }
    }

    /** The second `if` chain of `endElement`: route the stripped buffer. */
    method StoreContent() returns (ok: bool)
      requires Valid()
      modifies this
      ensures ok == StoreText(old(Snapshot()), old(content), countryMap).Some?
      ensures ok ==> Valid() && Snapshot() == StoreText(old(Snapshot()), old(content), countryMap).value
    {
      var tag := if currentTag.Some? then TagOf(currentTag.value) else Other;
      ok := item.Some?;
      if tag == LiteralForm && inAltLabel {
        if ok { item := Some(item.value.(altnames := item.value.altnames + [content])); }
      } else if tag == LiteralForm && inPrefLabel {
        if ok { item := Some(item.value.(name := Some(content))); }
      } else if tag == FundingBodyType {
        if ok { item := Some(item.value.(fundingBodyType := Some(content))); }
      } else if tag == FundingBodySubType {
        if ok { item := Some(item.value.(fundingBodySubType := Some(content))); }
      } else if tag == Region {
        if ok { item := Some(item.value.(region := Some(content))); }
      } else if tag == AddressCountry {
        if ok {
          item := Some(item.value.(countryCode := Some(content),
                                   country := Some(CountryName(countryMap, content))));
        }
      } else {
        ok := true;
      }
    }
  }

  /** The SAX parser delivering one event to the handler's matching callback. */
  method Dispatch(handler: FunderHandler, e: Event) returns (ok: bool)
    requires handler.Valid()
    modifies handler
    ensures ok == Step(old(handler.Snapshot()), e, handler.countryMap).Some?
    ensures ok ==> handler.Valid() && handler.Snapshot() == Step(old(handler.Snapshot()), e, handler.countryMap).value
  {
    match e
    case Start(name, attrs) => ok := handler.StartElement(name, attrs);
    case Chars(text) => handler.Characters(text); ok := true;
    case End(name) => ok := handler.EndElement(name);
  }

  /** The SAX parser delivering a whole event sequence, stopping at the
      first callback that raises. */
  method Feed(handler: FunderHandler, events: seq<Event>) returns (ok: bool)
    requires handler.Valid()
    modifies handler
    ensures ok == Run(old(handler.Snapshot()), events, handler.countryMap).Some?
    ensures ok ==> handler.Valid() &&
                   handler.Snapshot() == Run(old(handler.Snapshot()), events, handler.countryMap).value
  {
    ghost var start := handler.Snapshot();
    var i := 0;
    while i < |events|
      invariant 0 <= i <= |events|
      invariant handler.Valid()
      invariant Run(start, events[..i], handler.countryMap) == Some(handler.Snapshot())
    {
      ghost var before := handler.Snapshot();
      assert events[..i + 1][..i] == events[..i];
      assert Run(start, events[..i + 1], handler.countryMap) == Step(before, events[i], handler.countryMap);
      ok := Dispatch(handler, events[i]);
      if !ok {
        RunFailureSticks(start, events, i + 1, handler.countryMap);
        return;
      }
      i := i + 1;
    }
    assert events[..i] == events;
    ok := true;
  }

  /** `parse_rdf`: feed the events to a fresh handler, then require every
      declared top concept to be a key of the record set, exiting with status
      32 otherwise. The result is the record set alone, without the
      `existing` checklist. */
  method ParseRdf(events: seq<Event>, countryMap: map<string, string>) returns (r: Result<Registry>)
    ensures Run(Initial, events, countryMap).None? ==> r == Err(Raised)
    ensures Run(Initial, events, countryMap).Some? ==>
      var s := Run(Initial, events, countryMap).value;
      (r.Ok? <==> forall e :: e in s.existing ==> e in s.items.byId) &&
      (r.Ok? ==> r.value == s.items) &&
      (r.Err? ==> r == Err(Exit(32)))
    ensures r.Ok? ==> r.value.Valid() && AllUnresolved(r.value) && FiledUnderOwnId(r.value)
  {
    var handler := new FunderHandler(countryMap);
    var ok := Feed(handler, events);
    if !ok {
      return Err(Raised);
    }
    var existing, items := handler.existing, handler.items;
    var complete := AllTopConceptsDefined(existing, items);
    r := if complete then Ok(items) else Err(Exit(32));
  }

  /** The loop of `parse_rdf` over `existing`: true exactly when every
      declared top concept is a key of the record set. */
  method AllTopConceptsDefined(existing: seq<string>, items: Registry) returns (complete: bool)
    ensures complete <==> forall e :: e in existing ==> e in items.byId
  {
    var j := 0;
    while j < |existing|
      invariant 0 <= j <= |existing|
      invariant forall t :: 0 <= t < j ==> existing[t] in items.byId
    {
      if existing[j] !in items.byId {
        return false;
      }
      j := j + 1;
    }
    return true;
  }
}
