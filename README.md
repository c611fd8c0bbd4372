# Funder registry: parser and index build

This project models the core of a funder search service. It has two parts.

- **Parser.** The Open Funder Registry is a SKOS RDF/XML taxonomy. A SAX
  handler (`FunderHandler`) turns it into an id-keyed set of funder records.
  Then `parse_rdf` checks that every declared top concept is one of those
  records.
- **Index build.** `create_index` replaces each record's raw `narrower` and
  `broader` id lists with id -> name maps. It hands every record to the
  search database and commits every 5000 documents, then once at the end.
  The command-line driver refuses to run when a file or directory already exists at
  the database path.

Files:

- `funder.dfy` (module `FunderModel`): the record and the id-keyed record set.
  - `Funder` is the record.
  - `Registry` is a dictionary that remembers key insertion order, as a
    Python dict does. `Put` is `items[id] = f`.
  - `Failure` / `Result` carry an uncaught exception or a `sys.exit` status.
- `text.dfy` (module `Text`): `str.strip()` with Python's whitespace set.
- `parser.dfy` (module `FunderParser`):
  - Step functions over a `HandlerState` value: `StartStep`, `CharsStep`,
    and `EndStep` (built from `CloseElement` and `StoreText`).
  - `Run` feeds a whole event sequence.
  - The class `FunderHandler` has the handler's fields. Its callback methods
    update them in place and are proved to agree with the step functions.
  - `Feed` delivers events to a handler. `ParseRdf` is `parse_rdf`.
- `create_index.dfy` (module `IndexBuild`):
  - The database is a class that records the calls it receives, as a log of
    `Indexed(doc)` and `Committed` events.
  - `ResolveList`, `ResolveItem` and `CreateIndex` are the loops of
    `create_index`. They are proved against `ResolveFunder` / `ResolveAll`,
    which resolve against the original names, and against `IndexLog`, which
    is the log a build of given documents produces.
  - `Driver` is the `__main__` block.

Where a handler callback raises in Python, the model fails instead. This
covers:

- a missing `rdf:about` / `rdf:resource` attribute handed to `id_from_uri`;
- a field written while no concept is open;
- a relation id that is not a key during resolution.

The step function then returns `None`, the method `ok == false`, and the
driver exit status 1. The model takes no precondition for these cases.

Points where the code's behaviour is specific:

- Country codes are looked up exactly as written, with no lower-casing
  (`search/parser.py:92`).
- `svf:state` and `svf:country` take the `rdf:resource` attribute when the
  start tag is read, not the element text (`search/parser.py:55-56`,
  `search/parser.py:61-62`). The text of these elements is never stored.
- The database-path guard rejects any existing file or directory, empty or
  not, and it sits in the driver rather than in `create_index`
  (`search/create_index.py:79-81`).
- No `location` field is produced.

## Model

| member | source | states |
|---|---|---|
| FunderModel.NewFunder | search/parser.py:43-50 | A concept opens a record with the given id, DOI = "10.13039/" + id, no alternate names, empty narrower/broader lists and no optional field set |
| FunderModel.Registry.Put | search/parser.py:74 | `items[id] = item` keeps the dictionary well formed (distinct ordered keys, exactly the map's keys) and maps id to the new record. A new id goes to the end of the order; an existing id keeps its place |
| Text.StripIsTrim | search/parser.py:72 | `Strip`, which is `strip()`, returns a slice of the text that neither starts nor ends with whitespace, and everything cut off on either side is whitespace |
| Text.StripIdempotent | search/parser.py:72 | Stripping an already stripped buffer changes nothing |
| Text.StripKeepsTrimmed | search/parser.py:72 | Text with no whitespace at either end is returned unchanged |
| Text.StripAllSpace | search/parser.py:72 | Text made only of whitespace strips to the empty string |
| FunderParser.TagOfTagName | search/parser.py:7-21 | `TagOf` recognises each of the thirteen qualified names of the tag enumeration as its tag |
| FunderParser.TagNameTagOf | search/parser.py:7-21 | `TagOf` gives a tag other than `Other` only for the exact qualified name of that tag, so no other name is taken for one |
| FunderParser.IdFromUriIsLastSegment | search/parser.py:35-36 | `IdFromUri`, which is `uri.split('/')[-1]`, is the longest suffix of the URI without '/': it contains no '/', ends the URI, and is preceded by '/' whenever it is not the whole URI |
| FunderParser.IdFromUriAfterSlash | search/parser.py:35-36 | For any slash-free id, the id is recovered from any URI ending in "/" + id |
| FunderParser.IdFromDoi | search/parser.py:44-46 | A record's id is recovered from its own DOI |
| FunderParser.StartStep | search/parser.py:38-62 | A start tag keeps the handler invariant (well-formed record set, nothing resolved yet, every record filed under its own id with the DOI derived from it) and makes the tag the current tag |
| FunderParser.CharsStep | search/parser.py:68-69 | A text fragment is appended to the buffer and nothing else changes |
| FunderParser.CountryName | search/parser.py:92 | A mapped code gives its map entry; any other code gives "unknown" |
| FunderParser.CloseElement | search/parser.py:73-79 | Closing a concept or a label keeps the handler invariant |
| FunderParser.StoreText | search/parser.py:80-92 | Routing the stripped text into the open record keeps the handler invariant |
| FunderParser.EndStep | search/parser.py:71-94 | An end tag keeps the invariant and leaves an empty buffer and no current tag |
| FunderParser.Step | search/parser.py:38-94 | Every callback keeps the handler invariant |
| FunderParser.Run | search/parser.py:111 | Every state reached by a sequence of callbacks satisfies the invariant, so every parsed record sits under its own id with DOI "10.13039/" + id |
| FunderParser.TopConceptStart | search/parser.py:40-42 | `skos:hasTopConcept` appends the id after the last '/' of `rdf:resource` to the end of the top-concept list. Only that list and the current tag change. Without `rdf:resource` it raises |
| FunderParser.LabelStartSetsFlag | search/parser.py:57-60 | A `skosxl:prefLabel` start tag sets the preferred-label flag, and a `skosxl:altLabel` start tag the alternate-label flag. Nothing but that flag and the current tag changes |
| FunderParser.ConceptStartOpensRecord | search/parser.py:43-50 | `skos:Concept` opens a fresh record for the id after the last '/' of `rdf:about`, and nothing but the current tag and the record changes. Without `rdf:about` it raises |
| FunderParser.BroaderStartAppends | search/parser.py:51-52 | `skos:broader` appends exactly one id to the end of the open record's broader list. Everything else is unchanged. Outside a concept or without `rdf:resource` it raises |
| FunderParser.NarrowerStartAppends | search/parser.py:53-54 | `skos:narrower` appends exactly one id to the end of the open record's narrower list. Everything else is unchanged. Outside a concept or without `rdf:resource` it raises |
| FunderParser.ResourceFieldsAtStart | search/parser.py:55-62 | Inside a concept, `svf:state` and `svf:country` store the raw `rdf:resource` value (None when missing) as `state` / `geocountry` at start-tag time; only that field and the current tag change. Outside a concept both raise |
| FunderParser.LabelCloseClearsFlag | search/parser.py:76-79 | Closing `skosxl:prefLabel` clears the preferred-label flag, and closing `skosxl:altLabel` the alternate-label flag. Nothing else changes in the first branch chain |
| FunderParser.LabelEndClearsFlag | search/parser.py:71-79 | A `skosxl:prefLabel` end tag directly after its children clears the flag, empties the buffer and forgets the current tag; nothing else changes and it never raises |
| FunderParser.FundingBodyTypeEnd | search/parser.py:84-85 | Closing `svf:fundingBodyType` stores the stripped text as the open record's `fundingBodyType` and changes nothing else but the buffer and current tag. Outside a concept it raises |
| FunderParser.FundingBodySubTypeEnd | search/parser.py:86-87 | Closing `svf:fundingBodySubType` stores the stripped text as `fundingBodySubType`, with the same frame and failure as above |
| FunderParser.RegionEnd | search/parser.py:88-89 | Closing `svf:region` stores the stripped text as `region`, with the same frame and failure as above |
| FunderParser.LiteralFormEnd | search/parser.py:80-83 | Closing a literal form appends the stripped text to `altnames` inside an alternate label (checked first), or else sets `name` inside a preferred label, or else leaves the record as it is. The buffer and current tag are reset. With no open record it raises inside either label and changes only the buffer and current tag outside both |
| FunderParser.AddressCountryEnd | search/parser.py:90-92 | Closing `schema:addressCountry` stores the stripped code as `country_code`, and as `country` its map entry or "unknown". Only the record, buffer and current tag change, and an unmapped code never makes it fail. With no open record it raises |
| FunderParser.ConceptEndStores | search/parser.py:73-75 | Closing a concept, directly after its last child or with no children, gives exactly the old state with the record filed under its id (`items[id] = item`), no cursor, no current tag and an empty buffer; the label flags and top-concept list are untouched. A repeated id replaces the earlier record and keeps its position. Without an open record it raises |
| FunderParser.RunAppend | search/parser.py:111 | Feeding `a + b` is feeding `a` and then `b` |
| FunderParser.RunFailureSticks | search/parser.py:111 | Once a callback has raised, the parse as a whole fails whatever follows |
| FunderParser.CharsAccumulate | search/parser.py:64-69 | Any run of character fragments leaves the buffer holding its old contents followed by every fragment, in order, and nothing else changes |
| FunderParser.FunderHandler.constructor | search/parser.py:25-33 | The new handler is in the initial state (no record, no tag, flags off, empty buffer, empty lists) and satisfies the invariant |
| FunderParser.FunderHandler.StartElement | search/parser.py:38-62 | Updating the fields in place succeeds exactly when `StartStep` does, and the fields then equal its result |
| FunderParser.FunderHandler.Characters | search/parser.py:68-69 | The fields equal the `CharsStep` result |
| FunderParser.FunderHandler.EndElement | search/parser.py:71-94 | Succeeds exactly when `EndStep` does, the fields then equal its result, the buffer is empty and there is no current tag |
| FunderParser.FunderHandler.CloseCurrent | search/parser.py:72-79 | The first branch chain of `endElement` succeeds exactly when `CloseElement` does and then leaves its result |
| FunderParser.FunderHandler.StoreContent | search/parser.py:80-92 | The second branch chain of `endElement` succeeds exactly when `StoreText` on the stripped buffer does and then leaves its result |
| FunderParser.Dispatch | search/parser.py:111 | Delivering one event succeeds exactly when `Step` does and leaves its result |
| FunderParser.Feed | search/parser.py:111 | Delivering a whole event sequence succeeds exactly when `Run` does and leaves its result |
| FunderParser.AllTopConceptsDefined | search/parser.py:112-118 | True exactly when every declared top concept is a key of the record set |
| FunderParser.ParseRdf | search/parser.py:97-120 | A raising callback gives the exception. Otherwise the result is the parsed record set exactly when every top concept is a key, and exit status 32 when one is not. The returned set is well formed and unresolved, every record is filed under its own id with DOI "10.13039/" + id, and the top-concept list is not part of it |
| IndexBuild.Database.Add | search/create_index.py:45 | One document for the record is appended to what the database received |
| IndexBuild.Database.Commit | search/create_index.py:49-50 | One commit is appended to what the database received |
| IndexBuild.ResolveIdsMeaning | search/create_index.py:37-43 | `ResolveIds` gives a map exactly when every listed id is a key. The map then holds each listed id, and nothing else, with that id's name |
| IndexBuild.ResolveFunderMeaning | search/create_index.py:36-44 | `ResolveFunder`: resolving a record succeeds exactly when every narrower and broader id is a key. It then keeps every other field and maps each listed id (and nothing else) to that record's name |
| IndexBuild.ResolveList | search/create_index.py:37-43 | The inner loop succeeds exactly when every listed id is a key. It then builds the map whose keys are the listed ids and whose values are their records' names |
| IndexBuild.ResolveItem | search/create_index.py:37-44 | Resolving one record in place succeeds exactly when `ResolveFunder` does. Only that entry changes, to the resolved record, and no name in the dictionary changes |
| IndexBuild.NamesUnchanged | search/create_index.py:40 | Replacing a record by one with the same name leaves every name lookup as it was |
| IndexBuild.ResolveAllMeaning | search/create_index.py:36-44 | `ResolveAll` keeps every key and every field but the two lists. Each list becomes the map from exactly its listed ids, all of them keys, to those records' names in the record set |
| IndexBuild.ResolveAllKeepsNames | search/create_index.py:36-44 | Resolution keeps the keys and never changes a name |
| IndexBuild.ResolveOrderIrrelevant | search/create_index.py:36-44 | Resolving one entry in place does not change what any other record resolves to, so the visiting order does not matter |
| IndexBuild.PassKeepsNames | search/create_index.py:36-44 | At every point of the pass the dictionary has the original keys and names |
| IndexBuild.PassUntouched | search/create_index.py:36-44 | A record whose key comes later in the order is still the original |
| IndexBuild.PassResolved | search/create_index.py:36-44 | A record whose key has been visited resolves, and it is now its resolution against the original names |
| IndexBuild.PassComplete | search/create_index.py:36-44 | A full pass in which every record resolves gives exactly the resolution of the whole record set against its original names |
| IndexBuild.IndexLogDocuments | search/create_index.py:45 | In `IndexLog`, every record is added exactly once, in order, and nothing else is added |
| IndexBuild.IndexLogCommits | search/create_index.py:46-49 | In `IndexLog`, indexing n documents makes n / 5000 checkpoint commits |
| IndexBuild.BuildLogTotals | search/create_index.py:45-50 | A complete build of n records yields n documents and n / 5000 + 1 commits |
| IndexBuild.IndexLogPrefix | search/create_index.py:45-49 | What the database has received after the first i documents is a prefix of what it receives for the whole build |
| IndexBuild.CheckpointContents | search/create_index.py:46-49 | The log up to the k-th checkpoint commit ends with that commit and holds exactly the first k * 5000 documents, in order, and k commits |
| IndexBuild.AddCounted | search/create_index.py:45-49 | One document is added, the count grows by one, and a commit follows exactly when the new count is a multiple of 5000 |
| IndexBuild.CreateIndex | search/create_index.py:26-51 | Succeeds exactly when every record resolves. On success: count = number of records, the dictionary is the resolution of the original, and the database got every resolved record in dictionary order with checkpoint commits and a final commit. On failure: the first `count` records resolved and were added with their checkpoint commits, record `count` does not resolve, and there is no final commit |
| IndexBuild.Driver | search/create_index.py:61-90 | Status 2 exactly when a file or directory exists at the database path, and then nothing runs and the database is untouched. Otherwise the first step is fetch, parse or load according to the flags. When parsing, a raise gives 1, a missing top concept gives exactly 32, and 0 holds exactly when every top concept is defined and every parsed record resolves. When loading, the status is 0 or 1, and 0 exactly when every stored record resolves. Status 0 means the database got every resolved record in order with its checkpoint commits and a final commit. The database is touched only if the build ran |

## Left out

- Fetching the registry (`fetch_rdf`, `search/create_index.py:53-59`) is network I/O. `Driver` takes the already fetched document, as its SAX event sequence, as a parameter.
- The XML reader itself (`xml.sax.parse`, well-formedness, entity expansion, namespace handling) is not modelled. The handler is fed a sequence of start, characters and end events with qualified names and an attribute map.
- Reading `country_map.json`, writing and reading `funders.json2`, and their JSON encoding are file I/O. The country map and the stored record set are parameters of `Driver`.
- The search engine (`xapian.WritableDatabase`, `TermGenerator`, stemmer, spelling flag) and `index_funder` are not part of this model. The database is reduced to the sequence of add and commit calls it receives.
- `print` output, `--verbose` and argument parsing are left out.
- Exceptions are modelled only as failure: their type and message, and the partly updated handler state after a raising callback, are not modelled.
- The resolved relations are a `map`, which has no key order: the insertion order of the `narrower` and `broader` dicts built at `search/create_index.py:37-43` (the order of the raw id lists) is not kept.
- IndexBuild.CreateIndex: requires every record to hold raw id lists and the dictionary to be well formed, as `parse_rdf` produces it. It does not describe a hand-edited `funders.json2` with missing or already resolved relation fields.
- IndexBuild.Driver: when the build fails (status 1 after the build step) the contract does not say which documents reached the database; `CreateIndex`'s contract states it.
- IndexBuild.CreateIndex: on failure the partly resolved dictionary is not returned. The contract states only what the database received.
- IndexBuild.Driver: an exception raised before the build (for example by the parser) gives status 1, as an uncaught Python exception does. Crashes of the file system or the network are not modelled.
