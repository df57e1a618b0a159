/** Local names of discovered models: canonical collapse, fresh aliases, and stable account sync. */
module ModelAliases {
  import opened Wrappers
  import opened Texts

  // ----- Fresh names -----

  function Numbered(stem: string, ordinal: nat): string { stem + "-" + Show(ordinal) }

  lemma NumberedIsInjective(stem: string, a: nat, b: nat)
    requires Numbered(stem, a) == Numbered(stem, b)
    ensures a == b
  {
    assert Numbered(stem, a)[|stem| + 1..] == Show(a) && Numbered(stem, b)[|stem| + 1..] == Show(b);
  }

  /** The stem, or its first numbered variant that is free. */
  ghost predicate FirstFree(stem: string, taken: set<string>, name: string) {
    && name !in taken
    && (name == stem
        || (stem in taken && exists n: nat :: n >= 2 && name == Numbered(stem, n) && forall k: nat :: 2 <= k < n ==> Numbered(stem, k) in taken))
  }

  /** Two first free names are one name. */
  lemma FirstFreeIsUnique(stem: string, taken: set<string>, a: string, b: string)
    requires FirstFree(stem, taken, a) && FirstFree(stem, taken, b)
    ensures a == b
  {
  }

  method UniqueIdentity(stem: string, taken: set<string>) returns (name: string)
    ensures FirstFree(stem, taken, name)
  {
    if stem !in taken { return stem; }
    var ordinal := 2;
    ghost var unseen := taken;
    while Numbered(stem, ordinal) in taken
      invariant ordinal >= 2 && unseen <= taken
      invariant forall k: nat :: 2 <= k < ordinal ==> Numbered(stem, k) in taken
      invariant forall k: nat :: k >= ordinal && Numbered(stem, k) in taken ==> Numbered(stem, k) in unseen
      decreases |unseen|
    {
      forall k: nat | k > ordinal ensures Numbered(stem, k) != Numbered(stem, ordinal) {
        if Numbered(stem, k) == Numbered(stem, ordinal) { NumberedIsInjective(stem, k, ordinal); }
      }
      unseen := unseen - {Numbered(stem, ordinal)};
      ordinal := ordinal + 1;
    }
    name := Numbered(stem, ordinal);
  }

  // ----- Canonical collapse -----

  /** The first place of an ID in a list that holds it. */
  function First(ids: seq<string>, id: string): (k: nat)
    requires id in ids
    ensures k < |ids| && ids[k] == id && forall j :: 0 <= j < k ==> ids[j] != id
  {
    if ids[0] == id then 0 else 1 + First(ids[1..], id)
  }

  /** No ID of the same canonical identity is shorter, or as short and listed earlier. */
  ghost predicate Chosen(ids: seq<string>, canon: string -> string, id: string) {
    && id in ids
    && forall other :: other in ids && canon(other) == canon(id) ==>
         |id| < |other| || (|id| == |other| && First(ids, id) <= First(ids, other))
  }

  ghost function Canonical(ids: seq<string>, canon: string -> string): seq<string> { Filter(id => Chosen(ids, canon, id), ids) }

  lemma FirstAfter(ids: seq<string>, last: string, id: string)
    requires id in ids + [last]
    ensures First(ids + [last], id) == if id in ids then First(ids, id) else |ids|
  {
    var more := ids + [last];
    if id in ids {
      var k := First(ids, id);
      assert more[k] == id && forall j :: 0 <= j < k ==> more[j] == ids[j];
    }
  }

  lemma ChosenIsUnique(ids: seq<string>, canon: string -> string, a: string, b: string)
    requires Chosen(ids, canon, a) && Chosen(ids, canon, b) && canon(a) == canon(b)
    ensures a == b
  {
  }

  /** An ID stays chosen when no shorter one of its identity follows. */
  lemma StaysChosen(ids: seq<string>, last: string, canon: string -> string, id: string)
    requires Chosen(ids, canon, id) && (canon(last) == canon(id) ==> |id| <= |last|)
    ensures Chosen(ids + [last], canon, id)
  {
    FirstAfter(ids, last, id);
    forall other | other in ids + [last] && canon(other) == canon(id)
      ensures |id| < |other| || (|id| == |other| && First(ids + [last], id) <= First(ids + [last], other))
    {
      FirstAfter(ids, last, other);
    }
  }

  /** An ID shorter than all others of its identity is chosen. */
  lemma BecomesChosen(ids: seq<string>, last: string, canon: string -> string)
    requires forall other :: other in ids && canon(other) == canon(last) ==> |last| < |other|
    ensures Chosen(ids + [last], canon, last)
  {
  }

  /** One turn of the collapse loop keeps the best ID of every identity seen so far. */
  lemma ChosenStep(ids: seq<string>, last: string, canon: string -> string, held: map<string, string>)
    requires Best(ids, canon, held)
    ensures Best(ids + [last], canon, Improved(held, canon, last))
  {
    var next := Improved(held, canon, last);
    forall identity | identity in next ensures canon(next[identity]) == identity && Chosen(ids + [last], canon, next[identity]) {
      if identity in held && next[identity] == held[identity] {
        StaysChosen(ids, last, canon, held[identity]);
      } else {
        BecomesChosen(ids, last, canon);
      }
    }
  }

  function Improved(held: map<string, string>, canon: string -> string, id: string): map<string, string> {
    var identity := canon(id);
    if identity !in held || |id| < |held[identity]| then held[identity := id] else held
  }

  /** The table holds the chosen ID of every identity in the list, and nothing else. */
  ghost predicate Best(ids: seq<string>, canon: string -> string, held: map<string, string>) {
    && (forall id :: id in ids ==> canon(id) in held)
    && forall identity :: identity in held ==> canon(held[identity]) == identity && Chosen(ids, canon, held[identity])
  }

  method Keep(ids: seq<string>, canon: string -> string, held: map<string, string>) returns (kept: seq<string>)
    requires Best(ids, canon, held)
    ensures kept == Canonical(ids, canon)
  {
    BestIsChosen(ids, canon, held);
    hide Best, Chosen;
    var values := held.Values;
    kept := Filter(id => id in values, ids);
    SameFilter(id => id in values, id => Chosen(ids, canon, id), ids);
  }

  method CanonicalModels(ids: seq<string>, canon: string -> string) returns (kept: seq<string>)
    ensures kept == Canonical(ids, canon)
  {
    hide Chosen, Canonical;
    var held: map<string, string> := map[];
    var i := 0;
    while i < |ids|
      invariant 0 <= i <= |ids| && Best(ids[..i], canon, held)
    {
      ChosenStep(ids[..i], ids[i], canon, held);
      assert ids[..i] + [ids[i]] == ids[..i + 1];
      var identity := canon(ids[i]);
      if identity !in held || |ids[i]| < |held[identity]| { held := held[identity := ids[i]]; }
      i := i + 1;
    }
    assert ids[..i] == ids;
    kept := Keep(ids, canon, held);
  }

  lemma BestIsChosen(ids: seq<string>, canon: string -> string, held: map<string, string>)
    requires Best(ids, canon, held)
    ensures forall id :: id in ids ==> (id in held.Values <==> Chosen(ids, canon, id))
  {
    forall id | id in ids && Chosen(ids, canon, id) ensures id in held.Values {
      ChosenIsUnique(ids, canon, id, held[canon(id)]);
      assert canon(id) in held.Keys && held[canon(id)] == id;
    }
  }

  lemma {:induction false} SameFilter<T(!new)>(p: T -> bool, q: T -> bool, s: seq<T>)
    requires forall x :: x in s ==> (p(x) <==> q(x))
    ensures Filter(p, s) == Filter(q, s)
  {
    if s != [] {
      assert s[0] in s;
      SameFilter(p, q, s[1..]);
    }
  }

  /** Every identity keeps exactly one ID. */
  lemma OneIdPerIdentity(ids: seq<string>, canon: string -> string, id: string)
    requires id in ids
    ensures exists kept :: kept in Canonical(ids, canon) && canon(kept) == canon(id)
    ensures forall a, b :: a in Canonical(ids, canon) && b in Canonical(ids, canon) && canon(a) == canon(b) ==> a == b
  {
    forall a, b | a in Canonical(ids, canon) && b in Canonical(ids, canon) && canon(a) == canon(b) ensures a == b {
      ChosenIsUnique(ids, canon, a, b);
    }
    SomeBest(ids, canon);
    var held: map<string, string> :| Best(ids, canon, held);
    assert held[canon(id)] in Canonical(ids, canon);
  }

  lemma {:induction false} SomeBest(ids: seq<string>, canon: string -> string)
    ensures exists held: map<string, string> :: Best(ids, canon, held)
  {
    hide Chosen;
    if ids == [] {
      assert Best(ids, canon, map[]);
    } else {
      hide Best, Chosen, Improved;
      var n := |ids| - 1;
      SomeBest(ids[..n], canon);
      var held: map<string, string> :| Best(ids[..n], canon, held);
      ChosenStep(ids[..n], ids[n], canon, held);
      assert ids[..n] + [ids[n]] == ids;
    }
  }

  /** Collapsing what is already collapsed changes nothing. */
  lemma CanonicalIsIdempotent(ids: seq<string>, canon: string -> string)
    ensures Canonical(Canonical(ids, canon), canon) == Canonical(ids, canon)
  {
    var once := Canonical(ids, canon);
    forall id | id in once ensures Chosen(once, canon, id) {
      forall other | other in once && canon(other) == canon(id) ensures other == id { ChosenIsUnique(ids, canon, other, id); }
    }
    FilterAll(id => Chosen(once, canon, id), once);
  }

  /** Kept IDs stay distinct when the listed ones are. */
  lemma {:induction false} FilterDistinct<T(!new)>(keep: T -> bool, s: seq<T>)
    requires Distinct(s)
    ensures Distinct(Filter(keep, s))
  {
    if s != [] {
      assert forall i, j :: 0 <= i < j < |s[1..]| ==> s[1..][i] != s[1..][j];
      FilterDistinct(keep, s[1..]);
      assert s[0] !in s[1..];
    }
  }

  // ----- Account sync -----

  datatype Entry = Entry(alias: string, connection: string, model: string)

  function Aliases(catalog: seq<Entry>): set<string> { set k | 0 <= k < |catalog| :: catalog[k].alias }

  /** The aliases this connection's models have, a later entry winning. */
  function Existing(catalog: seq<Entry>, connection: string): (r: map<string, string>)
    ensures forall model :: model in r ==> exists k :: 0 <= k < |catalog| && catalog[k] == Entry(r[model], connection, model)
    ensures forall k :: 0 <= k < |catalog| && catalog[k].connection == connection ==> catalog[k].model in r
  {
    if catalog == [] then map[] else
    var last := catalog[|catalog| - 1];
    var before := Existing(catalog[..|catalog| - 1], connection);
    if last.connection == connection then before[last.model := last.alias] else before
  }

  /** Entries are keyed by alias. */
  ghost predicate Keyed(catalog: seq<Entry>) { forall i, j :: 0 <= i < j < |catalog| ==> catalog[i].alias != catalog[j].alias }

  function Names(records: seq<(string, string)>): set<string> { set k | 0 <= k < |records| :: records[k].0 }

  /** Alias and model of one record: the alias the model already had, or the first free one. */
  ghost predicate Recorded(existing: map<string, string>, stem: string -> string, taken: set<string>, record: (string, string)) {
    if record.1 in existing then record.0 == existing[record.1] else FirstFree(stem(record.1), taken, record.0)
  }

  ghost predicate SyncedPrefix(catalog: seq<Entry>, connection: string, stem: string -> string, records: seq<(string, string)>) {
    && (forall k :: 0 <= k < |records| ==>
          Recorded(Existing(catalog, connection), stem, Aliases(catalog) + Names(records[..k]), records[k]))
    && forall i, j :: 0 <= i < j < |records| ==> records[i].1 != records[j].1
  }

  /** Distinct models get distinct aliases; a model of this connection keeps its alias, and any other gets one no catalog entry has. */
  lemma SyncIsFreshAndStable(catalog: seq<Entry>, connection: string, stem: string -> string, records: seq<(string, string)>)
    requires Keyed(catalog) && SyncedPrefix(catalog, connection, stem, records)
    ensures forall i, j :: 0 <= i < j < |records| ==> records[i].0 != records[j].0
    ensures forall i, k :: 0 <= i < |records| && 0 <= k < |catalog| && catalog[k].alias == records[i].0
                           ==> catalog[k].connection == connection && catalog[k].model == records[i].1
    ensures forall k :: 0 <= k < |catalog| && catalog[k].connection == connection
                        && (forall j :: 0 <= j < |catalog| && catalog[j].connection == connection && catalog[j].model == catalog[k].model ==> j == k)
                        ==> forall i :: 0 <= i < |records| && records[i].1 == catalog[k].model ==> records[i].0 == catalog[k].alias
  {
    var existing := Existing(catalog, connection);
    hide Existing, FirstFree;
    forall i, k | 0 <= i < |records| && 0 <= k < |catalog| && catalog[k].alias == records[i].0
      ensures catalog[k].connection == connection && catalog[k].model == records[i].1
    {
      OwnAlias(catalog, connection, stem, Aliases(catalog) + Names(records[..i]), records[i], k);
    }
    forall i, j | 0 <= i < j < |records| ensures records[i].0 != records[j].0 {
      NoClash(catalog, connection, stem, records, i, j);
    }
  }

  lemma OwnAlias(catalog: seq<Entry>, connection: string, stem: string -> string, taken: set<string>, record: (string, string), k: nat)
    requires Keyed(catalog) && Recorded(Existing(catalog, connection), stem, taken, record) && Aliases(catalog) <= taken
    requires k < |catalog| && catalog[k].alias == record.0
    ensures record.1 in Existing(catalog, connection) && catalog[k] == Entry(record.0, connection, record.1)
  {
    assert catalog[k].alias in Aliases(catalog);
    var existing := Existing(catalog, connection);
    assert record.1 in existing;
    var j :| 0 <= j < |catalog| && catalog[j] == Entry(existing[record.1], connection, record.1);
    assert j == k;
  }

  lemma NoClash(catalog: seq<Entry>, connection: string, stem: string -> string, records: seq<(string, string)>, i: nat, j: nat)
    requires Keyed(catalog) && SyncedPrefix(catalog, connection, stem, records) && i < j < |records|
    ensures records[i].0 != records[j].0
  {
    var existing := Existing(catalog, connection);
    var earlier := records[..j];
    assert earlier[i] == records[i] && records[i].0 in Names(earlier);
    assert Recorded(existing, stem, Aliases(catalog) + Names(earlier), records[j]);
    if records[j].1 in existing {
      var k: nat :| k < |catalog| && catalog[k] == Entry(existing[records[j].1], connection, records[j].1);
      if records[i].0 == records[j].0 {
        OwnAlias(catalog, connection, stem, Aliases(catalog) + Names(records[..i]), records[i], k);
      }
    }
  }

  method NameModel(existing: map<string, string>, stem: string -> string, taken: set<string>, model: string) returns (alias: string)
    ensures Recorded(existing, stem, taken, (alias, model))
  {
    hide FirstFree;
    if model in existing { alias := existing[model]; } else { alias := UniqueIdentity(stem(model), taken); }
  }

  /** The IDs of a list, each where it is listed first. */
  function Firsts(ids: seq<string>): seq<string> {
    if ids == [] then [] else
    var before, last := Firsts(ids[..|ids| - 1]), ids[|ids| - 1];
    if last in before then before else before + [last]
  }

  /** They are the listed IDs, once each, in the order of their first listing. */
  lemma {:induction false} FirstsInOrder(ids: seq<string>)
    ensures forall id :: id in Firsts(ids) <==> id in ids
    ensures forall i, j :: 0 <= i < j < |Firsts(ids)| ==>
              Firsts(ids)[i] in ids && Firsts(ids)[j] in ids && First(ids, Firsts(ids)[i]) < First(ids, Firsts(ids)[j])
  {
    if ids != [] {
      var init, last := ids[..|ids| - 1], ids[|ids| - 1];
      assert init + [last] == ids;
      FirstsInOrder(init);
      forall id | id in ids ensures First(ids, id) == if id in init then First(init, id) else |init| { FirstAfter(init, last, id); }
    }
  }

  function ModelSeq(records: seq<(string, string)>): seq<string> {
    seq(|records|, k requires 0 <= k < |records| => records[k].1)
  }

  /** Each listed model once, in order of first listing, under its alias. */
  method SyncAliases(catalog: seq<Entry>, connection: string, discovered: seq<string>, stem: string -> string)
    returns (records: seq<(string, string)>)
    ensures SyncedPrefix(catalog, connection, stem, records)
    ensures ModelSeq(records) == Firsts(discovered)
  {
    hide Existing, FirstFree, Recorded, SyncedPrefix, Names, Aliases;
    var existing := Existing(catalog, connection);
    var taken, seen := Aliases(catalog), {};
    records := [];
    NoRecords(catalog, connection, stem);
    var i := 0;
    while i < |discovered|
      invariant 0 <= i <= |discovered|
      invariant SyncedPrefix(catalog, connection, stem, records)
      invariant taken == Aliases(catalog) + Names(records)
      invariant ModelSeq(records) == Firsts(discovered[..i])
      invariant forall model :: model in seen <==> model in ModelSeq(records)
    {
      var model := discovered[i];
      assert discovered[..i + 1][..i] == discovered[..i] && discovered[..i + 1][i] == model;
      if model !in seen {
        seen := seen + {model};
        var alias := NameModel(existing, stem, taken, model);
        assert forall k :: 0 <= k < |records| ==> records[k].1 in ModelSeq(records) by {
          assert forall k :: 0 <= k < |records| ==> ModelSeq(records)[k] == records[k].1;
        }
        Extended(catalog, connection, stem, records, (alias, model));
        assert ModelSeq(records + [(alias, model)]) == ModelSeq(records) + [model];
        records := records + [(alias, model)];
        taken := taken + {alias};
      }
      i := i + 1;
    }
    assert discovered[..i] == discovered;
  }

  lemma NoRecords(catalog: seq<Entry>, connection: string, stem: string -> string)
    ensures SyncedPrefix(catalog, connection, stem, []) && Names([]) == {}
  {
  }

  lemma Extended(catalog: seq<Entry>, connection: string, stem: string -> string, records: seq<(string, string)>, record: (string, string))
    requires SyncedPrefix(catalog, connection, stem, records)
    requires Recorded(Existing(catalog, connection), stem, Aliases(catalog) + Names(records), record)
    requires forall k :: 0 <= k < |records| ==> records[k].1 != record.1
    ensures SyncedPrefix(catalog, connection, stem, records + [record])
    ensures Names(records + [record]) == Names(records) + {record.0}
  {
    hide Existing, FirstFree, Recorded;
    var more := records + [record];
    forall k | 0 <= k < |more| ensures Recorded(Existing(catalog, connection), stem, Aliases(catalog) + Names(more[..k]), more[k]) {
      assert k < |records| ==> more[..k] == records[..k] && more[k] == records[k];
      assert k == |records| ==> more[..k] == records;
    }
    assert forall k :: 0 <= k < |records| ==> more[k] == records[k];
    assert more[|records|] == record;
  }

  // ----- Setup across providers -----

  /** One provider's listing: IDs with verified metadata, then IDs the operator must declare. */
  datatype Listing = Listing(provider: string, skipped: bool, verified: seq<string>, unknown: seq<string>, kept: bool)

  datatype Available = Available(alias: string, provider: string, model: string)

  /** How each provider names its models: the canonical identity, and the readable stem. */
  datatype Naming = Naming(canon: (string, string) -> string, stem: (string, string) -> string)

  function Fresh(provider: string, naming: Naming, configured: set<(string, string)>): string -> bool {
    id => (provider, naming.canon(provider, id)) !in configured
  }

  ghost function ToOffer(listing: Listing, naming: Naming, configured: set<(string, string)>): seq<string> {
    var canon := id => naming.canon(listing.provider, id);
    Filter(Fresh(listing.provider, naming, configured), Canonical(listing.verified, canon))
    + Filter(Fresh(listing.provider, naming, configured), Canonical(listing.unknown, canon))
  }

  function Given(models: seq<Available>): set<string> { set k | 0 <= k < |models| :: models[k].alias }

  /** Every alias was the first free one when it was given. */
  ghost predicate Named(existing: set<string>, naming: Naming, models: seq<Available>) {
    forall k :: 0 <= k < |models| ==>
      FirstFree(naming.stem(models[k].provider, models[k].model), existing + Given(models[..k]), models[k].alias)
  }

  /** Aliases given over all providers are pairwise distinct and none is in the catalog. */
  lemma SetupAliasesAreDistinct(existing: set<string>, naming: Naming, models: seq<Available>)
    requires Named(existing, naming, models)
    ensures forall i, j :: 0 <= i < j < |models| ==> models[i].alias != models[j].alias
    ensures Given(models) !! existing
  {
    forall i, j | 0 <= i < j < |models| ensures models[i].alias != models[j].alias {
      assert models[..j][i] == models[i];
      assert models[i].alias in Given(models[..j]);
      assert FirstFree(naming.stem(models[j].provider, models[j].model), existing + Given(models[..j]), models[j].alias);
    }
    forall k | 0 <= k < |models| ensures models[k].alias !in existing {
      assert FirstFree(naming.stem(models[k].provider, models[k].model), existing + Given(models[..k]), models[k].alias);
    }
  }

  lemma NamedMore(existing: set<string>, naming: Naming, models: seq<Available>, model: Available)
    requires Named(existing, naming, models)
    requires FirstFree(naming.stem(model.provider, model.model), existing + Given(models), model.alias)
    ensures Named(existing, naming, models + [model]) && Given(models + [model]) == Given(models) + {model.alias}
  {
    hide FirstFree;
    var more := models + [model];
    forall k | 0 <= k < |more|
      ensures FirstFree(naming.stem(more[k].provider, more[k].model), existing + Given(more[..k]), more[k].alias)
    {
      assert k < |models| ==> more[..k] == models[..k] && more[k] == models[k];
      assert k == |models| ==> more[..k] == models;
    }
    assert forall k :: 0 <= k < |models| ==> more[k] == models[k];
    assert more[|models|] == model;
  }

  function Ids(models: seq<Available>): seq<string> { seq(|models|, k requires 0 <= k < |models| => models[k].model) }

  /** The fresh canonical models of one provider, each under an alias nobody has. */
  method DiscoverModels(listing: Listing, naming: Naming, existing: set<string>, ghost given: seq<Available>, taken: set<string>,
                        configured: set<(string, string)>)
    returns (models: seq<Available>)
    requires Named(existing, naming, given) && taken == existing + Given(given)
    ensures Named(existing, naming, given + models)
    ensures Ids(models) == ToOffer(listing, naming, configured)
    ensures forall k :: 0 <= k < |models| ==> models[k].provider == listing.provider
  {
    hide FirstFree, Canonical, Named, Chosen;
    var canon := id => naming.canon(listing.provider, id);
    var verified := CanonicalModels(listing.verified, canon);
    var unknown := CanonicalModels(listing.unknown, canon);
    var ids := Filter(Fresh(listing.provider, naming, configured), verified) + Filter(Fresh(listing.provider, naming, configured), unknown);
    var aliases := taken;
    models := [];
    var i := 0;
    assert given + models == given;
    while i < |ids|
      invariant 0 <= i <= |ids| && |models| == i
      invariant aliases == existing + Given(given + models) && Named(existing, naming, given + models)
      invariant forall k :: 0 <= k < i ==> models[k].model == ids[k] && models[k].provider == listing.provider
    {
      var alias := UniqueIdentity(naming.stem(listing.provider, ids[i]), aliases);
      var model := Available(alias, listing.provider, ids[i]);
      NamedMore(existing, naming, given + models, model);
      assert given + models + [model] == given + (models + [model]);
      models := models + [model];
      aliases := aliases + {alias};
      i := i + 1;
    }
    assert Ids(models) == ids;
  }

  function Offered(models: seq<Available>): seq<(string, string)> {
    seq(|models|, k requires 0 <= k < |models| => (models[k].provider, models[k].model))
  }

  function Paired(provider: string, ids: seq<string>): seq<(string, string)> {
    seq(|ids|, k requires 0 <= k < |ids| => (provider, ids[k]))
  }

  /** The fresh canonical models of every provider that is not skipped, provider by provider. */
  ghost function ToOfferAll(listings: seq<Listing>, naming: Naming, configured: set<(string, string)>): seq<(string, string)> {
    if listings == [] then [] else
    var last := listings[|listings| - 1];
    ToOfferAll(listings[..|listings| - 1], naming, configured)
    + if last.skipped then [] else Paired(last.provider, ToOffer(last, naming, configured))
  }

  /** Names carried from provider to provider, so no two models of the whole setup share one; every fresh canonical model is offered. */
  method PrepareProviders(listings: seq<Listing>, naming: Naming, existing: set<string>, configured: set<(string, string)>)
    returns (available: seq<Available>)
    ensures Named(existing, naming, available)
    ensures Offered(available) == ToOfferAll(listings, naming, configured)
  {
    hide FirstFree, Canonical, Named, Chosen, ToOffer;
    available := [];
    var taken := existing;
    var i := 0;
    NoNames(existing, naming);
    assert existing + Given([]) == existing;
    while i < |listings|
      invariant 0 <= i <= |listings|
      invariant taken == existing + Given(available) && Named(existing, naming, available)
      invariant Offered(available) == ToOfferAll(listings[..i], naming, configured)
    {
      assert listings[..i + 1][..i] == listings[..i] && listings[..i + 1][i] == listings[i];
      if !listings[i].skipped {
        var models := DiscoverModels(listings[i], naming, existing, available, taken, configured);
        OfferedMore(available, models, listings[i].provider);
        if models != [] || listings[i].kept {
          taken := taken + Given(models);
          GivenConcat(available, models);
          available := available + models;
        } else {
          assert available + models == available;
        }
      }
      i := i + 1;
    }
    assert listings[..i] == listings;
  }

  lemma OfferedMore(available: seq<Available>, models: seq<Available>, provider: string)
    requires forall k :: 0 <= k < |models| ==> models[k].provider == provider
    ensures Offered(available + models) == Offered(available) + Paired(provider, Ids(models))
  {
  }

  /** No configured identity is offered again. */
  lemma {:induction false} OffersAreFresh(listings: seq<Listing>, naming: Naming, configured: set<(string, string)>)
    ensures forall offer :: offer in ToOfferAll(listings, naming, configured) ==> (offer.0, naming.canon(offer.0, offer.1)) !in configured
  {
    hide Canonical;
    if listings != [] {
      var last := listings[|listings| - 1];
      OffersAreFresh(listings[..|listings| - 1], naming, configured);
      var ids := ToOffer(last, naming, configured);
      forall offer | offer in Paired(last.provider, ids) ensures (offer.0, naming.canon(offer.0, offer.1)) !in configured {
        var k :| 0 <= k < |ids| && offer == (last.provider, ids[k]);
        assert ids[k] in ids;
      }
    }
  }

  lemma NoNames(existing: set<string>, naming: Naming)
    ensures Named(existing, naming, [])
  {
  }

  lemma GivenConcat(a: seq<Available>, b: seq<Available>)
    ensures Given(a + b) == Given(a) + Given(b)
  {
    assert forall k :: 0 <= k < |a| ==> (a + b)[k] == a[k];
    assert forall k :: 0 <= k < |b| ==> (a + b)[|a| + k] == b[k];
  }
}
