// The index build: resolve every record's narrower/broader ids into
// id -> name maps, hand each record to the index, and commit every
// CheckpointInterval documents and once at the end. The search database and
// the document writer are an abstract sink that records what it was given.

module IndexBuild {
  import opened FunderModel
  import FunderParser

  /** Documents between two checkpoint commits. */
  const CheckpointInterval: nat := 5000

  /** What the database sees: a document for a record, or a commit. */
  datatype DbEvent = Indexed(doc: Funder) | Committed

  /** The writable database, reduced to the sequence of calls it receives. */
  class Database {
    var log: seq<DbEvent>

    constructor ()
      ensures log == []
    {
      log := [];
    }

    /** `index_funder(item, db, termgenerator)`: one document for `f`. */
    method Add(f: Funder)
      modifies this
      ensures log == old(log) + [Indexed(f)]
    {
      log := log + [Indexed(f)];
    }

    /** `db.commit()`. */
    method Commit()
      modifies this
      ensures log == old(log) + [Committed]
    {
      log := log + [Committed];
    }
  }

  // ---------------------------------------------------------------------
  // Relationship resolution

  /** The only thing resolution reads from the record set: each id's `name`
      (None when the record has none). */
  function Names(items: map<string, Funder>): map<string, Option<string>> {
    map k | k in items :: items[k].name
  }

  /** The id -> name map built from a raw id list, or None when an id is not
      a key (`items.get(key)` is None and `.get('name')` raises). */
  function ResolveIds(ids: seq<string>, names: map<string, Option<string>>): Option<map<string, Option<string>>> {
    if forall k :: k in ids ==> k in names then Some(map k | k in ids :: names[k])
    else None
  }

  /** The map exists exactly when every id is a key; it then holds each
      listed id, and nothing else, with that id's name. */
  lemma ResolveIdsMeaning(ids: seq<string>, names: map<string, Option<string>>)
    ensures ResolveIds(ids, names).Some? <==> forall k :: k in ids ==> k in names
    ensures ResolveIds(ids, names).Some? ==>
      var m := ResolveIds(ids, names).value;
      m.Keys == (set k | k in ids) && forall k :: k in m ==> m[k] == names[k]
  {
  }

  /** One record after resolution: both lists replaced by id -> name maps;
      None when either list names an id that is not in the record set. */
  function ResolveFunder(f: Funder, names: map<string, Option<string>>): Option<Funder>
    requires Unresolved(f)
  {
    match ResolveIds(f.narrower.ids, names)
    case None => None
    case Some(narrower) =>
      match ResolveIds(f.broader.ids, names)
      case None => None
      case Some(broader) => Some(f.(narrower := Resolved(narrower), broader := Resolved(broader)))
  }

  /** Resolution succeeds exactly when every listed id is a key; it then
      keeps every other field, and maps each listed id, and nothing else, to
      that record's name. */
  lemma ResolveFunderMeaning(f: Funder, names: map<string, Option<string>>)
    requires Unresolved(f)
    ensures var r := ResolveFunder(f, names);
      (r.Some? <==> (forall k :: k in f.narrower.ids ==> k in names) &&
                    (forall k :: k in f.broader.ids ==> k in names)) &&
      (r.Some? ==>
        r.value.(narrower := f.narrower, broader := f.broader) == f &&
        r.value.narrower.Resolved? && r.value.broader.Resolved? &&
        r.value.narrower.names.Keys == (set k | k in f.narrower.ids) &&
        r.value.broader.names.Keys == (set k | k in f.broader.ids) &&
        (forall k :: k in r.value.narrower.names ==> r.value.narrower.names[k] == names[k]) &&
        (forall k :: k in r.value.broader.names ==> r.value.broader.names[k] == names[k]))
  {
  }

  ghost predicate Resolvable(items: map<string, Funder>)
  {
    forall k :: k in items ==> Unresolved(items[k]) && ResolveFunder(items[k], Names(items)).Some?
  }

  /** The record set after the whole pass; each entry depends only on the
      original record set, not on the order of the pass. */
  function ResolveAll(items: map<string, Funder>): map<string, Funder>
    requires Resolvable(items)
  {
    map k | k in items :: ResolveFunder(items[k], Names(items)).value
  }

  /** After the pass every record keeps its key and every field but its two
      lists, and each list has become the map from exactly its listed ids to
      the names those records have in the record set. */
  lemma ResolveAllMeaning(items: map<string, Funder>)
    requires Resolvable(items)
    ensures ResolveAll(items).Keys == items.Keys
    ensures forall k :: k in items ==>
      var f, g := items[k], ResolveAll(items)[k];
      g.(narrower := f.narrower, broader := f.broader) == f &&
      g.narrower.Resolved? && g.broader.Resolved? &&
      g.narrower.names.Keys == (set j | j in f.narrower.ids) &&
      g.broader.names.Keys == (set j | j in f.broader.ids) &&
      (forall j :: j in g.narrower.names ==> j in items && g.narrower.names[j] == items[j].name) &&
      (forall j :: j in g.broader.names ==> j in items && g.broader.names[j] == items[j].name)
  {
    forall k | k in items
      ensures
        var f, g := items[k], ResolveAll(items)[k];
        g.(narrower := f.narrower, broader := f.broader) == f &&
        g.narrower.Resolved? && g.broader.Resolved? &&
        g.narrower.names.Keys == (set j | j in f.narrower.ids) &&
        g.broader.names.Keys == (set j | j in f.broader.ids) &&
        (forall j :: j in g.narrower.names ==> j in items && g.narrower.names[j] == items[j].name) &&
        (forall j :: j in g.broader.names ==> j in items && g.broader.names[j] == items[j].name)
    {
      ResolveFunderMeaning(items[k], Names(items));
    }
  }

  /** Every id of `ids` is a key whose record resolves. */
  ghost predicate ResolvesEach(ids: seq<string>, items: map<string, Funder>) {
    forall t :: 0 <= t < |ids| ==>
      ids[t] in items && Unresolved(items[ids[t]]) && ResolveFunder(items[ids[t]], Names(items)).Some?
  }

  /** The resolved records for `ids`, in that order. */
  function ResolvedDocs(ids: seq<string>, items: map<string, Funder>): seq<Funder>
    requires ResolvesEach(ids, items)
  {
    seq(|ids|, t requires 0 <= t < |ids| => ResolveFunder(items[ids[t]], Names(items)).value)
  }

  /** Replacing a record by one with the same name leaves every name as it
      was, so no later lookup can tell whether that record was resolved yet. */
  lemma NamesUnchanged(items: map<string, Funder>, k: string, f: Funder)
    requires k in items && f.name == items[k].name
    ensures Names(items[k := f]) == Names(items)
  {
    var before, after := Names(items), Names(items[k := f]);
    assert forall j :: j in after <==> j in before;
    assert forall j :: j in after ==> after[j] == before[j];
  }

  /** Resolution never writes a name. */
  lemma ResolveAllKeepsNames(items: map<string, Funder>)
    requires Resolvable(items)
    ensures ResolveAll(items).Keys == items.Keys
    ensures Names(ResolveAll(items)) == Names(items)
  {
    var after := ResolveAll(items);
    forall k | k in items
      ensures k in after && after[k].name == items[k].name
    {
      var f := items[k];
      assert after[k] == ResolveFunder(f, Names(items)).value;
    }
    assert Names(after) == Names(items);
  }

  /** Resolving one entry in place changes what no other entry resolves to:
      the pass may visit the records in any order. */
  lemma ResolveOrderIrrelevant(items: map<string, Funder>, k: string, g: Funder)
    requires Resolvable(items) && k in items && Unresolved(g)
    ensures
      var inPlace := items[k := ResolveFunder(items[k], Names(items)).value];
      ResolveFunder(g, Names(inPlace)) == ResolveFunder(g, Names(items))
  {
    NamesUnchanged(items, k, ResolveFunder(items[k], Names(items)).value);
  }

  /** The inner loop of `create_index`: the id -> name map for one raw list,
      failing on the first id that is not a key. */
  method ResolveList(ids: seq<string>, items: map<string, Funder>) returns (ok: bool, names: map<string, Option<string>>)
    ensures ok <==> forall k :: k in ids ==> k in items
    ensures ok ==> names.Keys == (set k | k in ids) &&
                   (forall k :: k in names ==> names[k] == items[k].name)
    ensures ok ==> ResolveIds(ids, Names(items)) == Some(names)
  {
    names := map[];
    var i := 0;
    while i < |ids|
      invariant 0 <= i <= |ids|
      invariant forall t :: 0 <= t < i ==> ids[t] in items
      invariant names.Keys == (set t | 0 <= t < i :: ids[t])
      invariant forall k :: k in names ==> k in items && names[k] == items[k].name
    {
      var key := ids[i];
      if key !in items {
        return false, names;
      }
      names := names[key := items[key].name];
      i := i + 1;
    }
    ok := true;
    assert forall k :: k in ids ==> exists t :: 0 <= t < |ids| && ids[t] == k;
    assert names == map k | k in ids :: Names(items)[k];
  }

  /** One pass of the outer loop of `create_index` up to the indexing call:
      the record under `key` gets its narrower map and then its broader map,
      in place; names are looked up in the dictionary as it is then. Fails
      when either list names an id that is not a key. */
  method ResolveItem(items: map<string, Funder>, key: string) returns (ok: bool, items': map<string, Funder>)
    requires key in items && Unresolved(items[key])
    ensures ok == ResolveFunder(items[key], Names(items)).Some?
    ensures ok ==> items' == items[key := ResolveFunder(items[key], Names(items)).value]
    ensures ok ==> Names(items') == Names(items)
  {
    var item := items[key];
    var narrowerOk, narrower := ResolveList(item.narrower.ids, items);
    if !narrowerOk {
      return false, items;
    }
    NamesUnchanged(items, key, item.(narrower := Resolved(narrower)));
    items' := items[key := item.(narrower := Resolved(narrower))];
    var broaderOk, broader := ResolveList(item.broader.ids, items');
    if !broaderOk {
      return false, items';
    }
    NamesUnchanged(items', key, item.(narrower := Resolved(narrower), broader := Resolved(broader)));
    items' := items'[key := item.(narrower := Resolved(narrower), broader := Resolved(broader))];
    ok := true;
  }

  // ---------------------------------------------------------------------
  // What the database receives

  /** The calls made while indexing `docs` one after another: a document for
      each, followed by a commit whenever the running count reaches a
      multiple of CheckpointInterval. */
  function IndexLog(docs: seq<Funder>): seq<DbEvent> {
    if docs == [] then []
    else
      IndexLog(docs[..|docs| - 1]) + [Indexed(docs[|docs| - 1])] +
      (if |docs| % CheckpointInterval == 0 then [Committed] else [])
  }

  function Commits(log: seq<DbEvent>): nat {
    if log == [] then 0
    else Commits(log[..|log| - 1]) + (if log[|log| - 1] == Committed then 1 else 0)
  }

  /** The documents of a log, in the order they were added. */
  function Documents(log: seq<DbEvent>): seq<Funder> {
    if log == [] then []
    else Documents(log[..|log| - 1]) + (if log[|log| - 1].Indexed? then [log[|log| - 1].doc] else [])
  }

  lemma {:induction false} CommitsAppend(a: seq<DbEvent>, b: seq<DbEvent>)
    ensures Commits(a + b) == Commits(a) + Commits(b)
    decreases |b|
  {
    if b == [] {
      assert a + b == a;
    } else {
      var b' := b[..|b| - 1];
      assert (a + b)[..|a + b| - 1] == a + b';
      CommitsAppend(a, b');
    }
  }

  lemma {:induction false} DocumentsAppend(a: seq<DbEvent>, b: seq<DbEvent>)
    ensures Documents(a + b) == Documents(a) + Documents(b)
    decreases |b|
  {
    if b == [] {
      assert a + b == a;
    } else {
      var b' := b[..|b| - 1];
      assert (a + b)[..|a + b| - 1] == a + b';
      DocumentsAppend(a, b');
    }
  }

  /** Every record is added exactly once, in order, and nothing else is. */
  lemma {:induction false} IndexLogDocuments(docs: seq<Funder>)
    ensures Documents(IndexLog(docs)) == docs
  {
    if docs != [] {
      var init := docs[..|docs| - 1];
      var tail := (if |docs| % CheckpointInterval == 0 then [Committed] else []);
      IndexLogDocuments(init);
      DocumentsAppend(IndexLog(init) + [Indexed(docs[|docs| - 1])], tail);
      DocumentsAppend(IndexLog(init), [Indexed(docs[|docs| - 1])]);
      assert Documents([Indexed(docs[|docs| - 1])]) == [docs[|docs| - 1]];
      assert init + [docs[|docs| - 1]] == docs;
    }
  }

  /** While indexing n documents, a checkpoint commit happens once per full
      CheckpointInterval: n / CheckpointInterval of them. */
  lemma {:induction false} IndexLogCommits(docs: seq<Funder>)
    ensures Commits(IndexLog(docs)) == |docs| / CheckpointInterval
  {
    if docs != [] {
      var n := |docs|;
      var init := docs[..n - 1];
      var tail := (if n % CheckpointInterval == 0 then [Committed] else []);
      IndexLogCommits(init);
      CommitsAppend(IndexLog(init) + [Indexed(docs[n - 1])], tail);
      CommitsAppend(IndexLog(init), [Indexed(docs[n - 1])]);
      assert Commits([Indexed(docs[n - 1])]) == 0;
      assert Commits(tail) == (if n % CheckpointInterval == 0 then 1 else 0);
      DivStep(n);
    }
  }

  lemma DivStep(n: nat)
    requires n > 0
    ensures n / CheckpointInterval ==
      (n - 1) / CheckpointInterval + (if n % CheckpointInterval == 0 then 1 else 0)
  {
  }

  /** A whole successful build of n records: n documents and
      n / CheckpointInterval + 1 commits, the last event being a commit. */
  lemma BuildLogTotals(docs: seq<Funder>)
    ensures Documents(IndexLog(docs) + [Committed]) == docs
    ensures Commits(IndexLog(docs) + [Committed]) == |docs| / CheckpointInterval + 1
  {
    IndexLogDocuments(docs);
    IndexLogCommits(docs);
    DocumentsAppend(IndexLog(docs), [Committed]);
    CommitsAppend(IndexLog(docs), [Committed]);
    assert Documents([Committed]) == [];
  }

  /** What the database has seen after the first `i` documents is a prefix
      of what it sees for the whole build. */
  lemma {:induction false} IndexLogPrefix(docs: seq<Funder>, i: nat)
    requires i <= |docs|
    ensures IndexLog(docs[..i]) <= IndexLog(docs)
    decreases |docs|
  {
    if i < |docs| {
      var init := docs[..|docs| - 1];
      assert docs[..i] == init[..i];
      IndexLogPrefix(init, i);
    } else {
      assert docs[..i] == docs;
    }
  }

  /** A crash right after the k-th checkpoint commit: the committed part of
      the log ends with that commit, holds exactly the first
      k * CheckpointInterval documents, in order, and k commits. */
  lemma CheckpointContents(docs: seq<Funder>, k: nat)
    requires 0 < k && k * CheckpointInterval <= |docs|
    ensures var done := IndexLog(docs[..k * CheckpointInterval]);
      done <= IndexLog(docs) && done != [] && done[|done| - 1] == Committed &&
      Documents(done) == docs[..k * CheckpointInterval] && Commits(done) == k
  {
    var n := k * CheckpointInterval;
    IndexLogPrefix(docs, n);
    IndexLogDocuments(docs[..n]);
    IndexLogCommits(docs[..n]);
    assert n / CheckpointInterval == k;
  }

  // ---------------------------------------------------------------------
  // create_index

  /** The dictionary after the pass has resolved, in place, the records
      under the first `i` ids (a record that does not resolve is left as it
      is; the pass stops before one). */
  ghost function Pass(ids: seq<string>, orig: map<string, Funder>, i: nat): map<string, Funder>
    requires i <= |ids|
    decreases i
  {
    if i == 0 then orig
    else
      var k := ids[i - 1];
      if k in orig && Unresolved(orig[k]) && ResolveFunder(orig[k], Names(orig)).Some?
      then Pass(ids, orig, i - 1)[k := ResolveFunder(orig[k], Names(orig)).value]
      else Pass(ids, orig, i - 1)
  }

  /** Part way through the pass the dictionary has the same keys and the
      same names as before. */
  lemma {:induction false} PassKeepsNames(ids: seq<string>, orig: map<string, Funder>, i: nat)
    requires i <= |ids|
    ensures Pass(ids, orig, i).Keys == orig.Keys
    ensures Names(Pass(ids, orig, i)) == Names(orig)
  {
    if i > 0 {
      PassKeepsNames(ids, orig, i - 1);
      var k := ids[i - 1];
      if k in orig && Unresolved(orig[k]) && ResolveFunder(orig[k], Names(orig)).Some? {
        var before := Pass(ids, orig, i - 1);
        ResolveFunderMeaning(orig[k], Names(orig));
        assert before[k].name == Names(before)[k] == Names(orig)[k] == orig[k].name;
        NamesUnchanged(before, k, ResolveFunder(orig[k], Names(orig)).value);
      }
    }
  }

  /** A record whose id comes later in the order is not touched yet. */
  lemma {:induction false} PassUntouched(ids: seq<string>, orig: map<string, Funder>, i: nat, t: nat)
    requires i <= t < |ids| && ids[t] in orig
    requires forall a, b :: 0 <= a < b < |ids| ==> ids[a] != ids[b]
    ensures ids[t] in Pass(ids, orig, i) && Pass(ids, orig, i)[ids[t]] == orig[ids[t]]
  {
    if i > 0 {
      PassUntouched(ids, orig, i - 1, t);
      assert ids[i - 1] != ids[t];
    }
  }

  /** A record whose id has been visited is its resolved version. */
  lemma {:induction false} PassResolved(ids: seq<string>, orig: map<string, Funder>, i: nat, t: nat)
    requires t < i <= |ids| && ResolvesEach(ids[..i], orig)
    requires forall a, b :: 0 <= a < b < |ids| ==> ids[a] != ids[b]
    ensures ids[t] in orig && Unresolved(orig[ids[t]]) && ResolveFunder(orig[ids[t]], Names(orig)).Some?
    ensures ids[t] in Pass(ids, orig, i) &&
            Pass(ids, orig, i)[ids[t]] == ResolveFunder(orig[ids[t]], Names(orig)).value
  {
    assert ids[..i][t] == ids[t] && ids[..i][i - 1] == ids[i - 1];
    if t < i - 1 {
      assert ids[..i - 1] == ids[..i][..i - 1];
      PassResolved(ids, orig, i - 1, t);
      assert ids[i - 1] != ids[t];
    }
  }

  /** A complete pass over the keys of a dictionary resolves every record. */
  lemma PassComplete(reg: Registry)
    requires reg.Valid() && ResolvesEach(reg.ids, reg.byId)
    ensures Resolvable(reg.byId)
    ensures Pass(reg.ids, reg.byId, |reg.ids|) == ResolveAll(reg.byId)
  {
    var ids, n := reg.ids, |reg.ids|;
    assert ids[..n] == ids;
    forall k | k in reg.byId
      ensures Unresolved(reg.byId[k]) && ResolveFunder(reg.byId[k], Names(reg.byId)).Some?
    {
      var t :| 0 <= t < n && ids[t] == k;
    }
    PassKeepsNames(ids, reg.byId, n);
    var done := Pass(ids, reg.byId, n);
    forall k | k in done
      ensures done[k] == ResolveAll(reg.byId)[k]
    {
      var t :| 0 <= t < n && ids[t] == k;
      PassResolved(ids, reg.byId, n, t);
    }
  }

  /** `create_index`: resolve and index every record in dictionary order.
      On success every record is resolved against the original names, each
      is added once, in order, after both its relations are resolved, with a
      commit every CheckpointInterval documents and a final commit. It fails
      exactly when some record names an id that is not a key; then `count`
      records (all before the first failing one) have been added with their
      checkpoint commits, and there is no final commit. */
  method CreateIndex(db: Database, reg: Registry) returns (ok: bool, count: nat, resolved: Registry)
    requires reg.Valid() && AllUnresolved(reg)
    modifies db
    ensures ok <==> Resolvable(reg.byId)
    ensures ok ==>
      count == |reg.ids| &&
      resolved == Registry(reg.ids, ResolveAll(reg.byId)) &&
      db.log == old(db.log) + IndexLog(ResolvedDocs(reg.ids, reg.byId)) + [Committed]
    ensures !ok ==>
      count < |reg.ids| && ResolvesEach(reg.ids[..count], reg.byId) &&
      ResolveFunder(reg.byId[reg.ids[count]], Names(reg.byId)).None? &&
      db.log == old(db.log) + IndexLog(ResolvedDocs(reg.ids[..count], reg.byId))
  {
    var ids, items := reg.ids, reg.byId;
    var n := |ids|;
    count := 0;
    while count < n
      invariant count <= n && ResolvesEach(ids[..count], reg.byId)
      invariant items == Pass(ids, reg.byId, count)
      invariant db.log == old(db.log) + IndexLog(ResolvedDocs(ids[..count], reg.byId))
    {
      var key := ids[count];
      PassKeepsNames(ids, reg.byId, count);
      PassUntouched(ids, reg.byId, count, count);
      var itemOk, items' := ResolveItem(items, key);
      if !itemOk {
        NotResolvable(reg.byId, key);
        return false, count, reg;
      }
      ResolvesEachExtend(ids, reg.byId, count);
      IndexLogExtend(ids, reg.byId, count);
      ghost var done := IndexLog(ResolvedDocs(ids[..count], reg.byId));
      ghost var next := IndexLog(ResolvedDocs(ids[..count + 1], reg.byId));
      ghost var doc := ResolveFunder(reg.byId[ids[count]], Names(reg.byId)).value;
      assert next == done + [Indexed(doc)] + (if (count + 1) % CheckpointInterval == 0 then [Committed] else []);
      ghost var tail := if (count + 1) % CheckpointInterval == 0 then [Committed] else [];
      assert next == done + [Indexed(doc)] + tail;
      assert items'[key] == doc;
      items := items';
      ghost var mid := db.log;
      count := AddCounted(db, items[key], count);
      assert db.log == mid + [Indexed(doc)] + tail;
      AppendRegroup(old(db.log), done, [Indexed(doc)], tail);
    }
    db.Commit();
    assert ids[..n] == ids;
    PassComplete(reg);
    ok, resolved := true, Registry(ids, items);
  }

  /** Lines 45-49 of `create_index`: add the document, count it, and commit
      when the count reaches a multiple of CheckpointInterval. */
  method AddCounted(db: Database, doc: Funder, count: nat) returns (count': nat)
    modifies db
    ensures count' == count + 1
    ensures db.log == old(db.log) + [Indexed(doc)] +
                      (if count' % CheckpointInterval == 0 then [Committed] else [])
  {
    db.Add(doc);
    count' := count + 1;
    if count' % CheckpointInterval == 0 {
      db.Commit();
    }
  }

  /** The log grows by one record, and a commit when the count reaches a
      multiple of CheckpointInterval. */
  lemma IndexLogExtend(ids: seq<string>, items: map<string, Funder>, i: nat)
    requires i < |ids| && ResolvesEach(ids[..i + 1], items)
    ensures IndexLog(ResolvedDocs(ids[..i + 1], items)) ==
      IndexLog(ResolvedDocs(ids[..i], items)) + [Indexed(ResolveFunder(items[ids[i]], Names(items)).value)] +
      (if (i + 1) % CheckpointInterval == 0 then [Committed] else [])
  {
    var docs := ResolvedDocs(ids[..i + 1], items);
    assert docs[..i] == ResolvedDocs(ids[..i], items);
  }

  lemma AppendRegroup(a: seq<DbEvent>, b: seq<DbEvent>, c: seq<DbEvent>, d: seq<DbEvent>)
    ensures a + b + c + d == a + (b + c + d)
  {
  }

  lemma ResolvesEachExtend(ids: seq<string>, items: map<string, Funder>, i: nat)
    requires i < |ids| && ResolvesEach(ids[..i], items)
    requires ids[i] in items && Unresolved(items[ids[i]]) && ResolveFunder(items[ids[i]], Names(items)).Some?
    ensures ResolvesEach(ids[..i + 1], items)
  {
  }

  lemma NotResolvable(items: map<string, Funder>, key: string)
    requires key in items && Unresolved(items[key]) && ResolveFunder(items[key], Names(items)).None?
    ensures !Resolvable(items)
  {
  }

  // ---------------------------------------------------------------------
  // The command-line driver

  /** The steps of a run of the driver, in order. */
  datatype Stage = FetchRdf | ParseRegistry | WriteJson | LoadJson | BuildIndex

  /** The `__main__` driver. `dbpathExists` says whether a file or directory
      is at the database path. The registry RDF (already fetched when
      `fetch` is set) is given as its event sequence, and the stored JSON as
      the record set it holds. The result is the exit status and the steps
      taken: an existing path stops the run with status 2 before any step and
      any write to the database; a missing top concept gives status 32; an
      uncaught exception gives status 1; status 0 means every record resolved
      and the database got the whole build. */
  method Driver(db: Database, dbpathExists: bool, fetch: bool, rebuildJson: bool,
                rdfEvents: seq<FunderParser.Event>, countryMap: map<string, string>,
                stored: Registry)
    returns (status: int, stages: seq<Stage>)
    requires stored.Valid() && AllUnresolved(stored)
    modifies db
    ensures status == 2 <==> dbpathExists
    ensures dbpathExists ==> stages == [] && db.log == old(db.log)
    ensures !dbpathExists ==>
      (stages != [] &&
       stages[0] == (if fetch then FetchRdf else if rebuildJson then ParseRegistry else LoadJson))
    ensures status in {0, 1, 2, 32}
    ensures status == 0 ==> stages[|stages| - 1] == BuildIndex &&
                            |db.log| > |old(db.log)| && db.log[|db.log| - 1] == Committed
    ensures BuildIndex !in stages ==> db.log == old(db.log)
    ensures !dbpathExists && (fetch || rebuildJson) ==>
      var run := FunderParser.Run(FunderParser.Initial, rdfEvents, countryMap);
      (run.None? ==> status == 1) &&
      (run.Some? ==>
        var parsed := run.value.items;
        (status == 32 <==> !(forall e :: e in run.value.existing ==> e in parsed.byId)) &&
        (status == 0 <==> (forall e :: e in run.value.existing ==> e in parsed.byId) && Resolvable(parsed.byId)) &&
        (status == 0 ==> db.log == old(db.log) + IndexLog(ResolvedDocs(parsed.ids, parsed.byId)) + [Committed]))
    ensures !dbpathExists && !fetch && !rebuildJson ==>
      status in {0, 1} &&
      (status == 0 <==> Resolvable(stored.byId)) &&
      (status == 0 ==> db.log == old(db.log) + IndexLog(ResolvedDocs(stored.ids, stored.byId)) + [Committed])
  {
    if dbpathExists {
      return 2, [];
    }
    stages := [];
    var funders := stored;
    if fetch {
      stages := stages + [FetchRdf];
    }
    if fetch || rebuildJson {
      stages := stages + [ParseRegistry];
      var parsed := FunderParser.ParseRdf(rdfEvents, countryMap);
      match parsed
      case Err(failure) =>
        status := if failure == Exit(32) then 32 else 1;
        return;
      case Ok(registry) =>
        funders := registry;
        stages := stages + [WriteJson];
    } else {
      stages := stages + [LoadJson];
    }
    stages := stages + [BuildIndex];
    var ok, count, resolved := CreateIndex(db, funders);
    status := if ok then 0 else 1;
  }
}
