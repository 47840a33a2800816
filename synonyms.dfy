/** The synonym table of openai_extract_fields_combined.py and
    `normalize_test_name`.

    `synonyms.json` nests test names three levels deep: a category maps
    canonical names to either a list of synonyms or a table of
    sub-canonical names, each with its own list. At import the module
    flattens it into `synonyms_flat`, mapping every synonym, lowercased and
    stripped, to the name it stands for; a synonym seen again later
    overwrites the earlier entry. `normalize_test_name` looks a test name up
    in that table and in `categories_map`. */
module Synonyms {
  import opened Wrappers
  import opened Seqs
  import Text

  /** The value under a canonical name in `synonyms.json`. */
  datatype SynonymEntry =
    | Synonyms(synonyms: seq<string>)                  // a list
    | SubTable(subs: seq<(string, seq<string>)>)       // a dict of sub-canonical names

  /** The whole of `synonyms.json`: categories, each with its canonical names. */
  type Nested = seq<(string, seq<(string, SynonymEntry)>)>

  /** `synonym.lower().strip()`, also applied to the name being normalised. */
  function Key(s: string): string {
    Text.Strip(Text.Lower(s))
  }

  // ---------------------------------------------------------------------
  // The assignments the flattening loops make, in order
  // ---------------------------------------------------------------------

  /** Performs `table[key] = value` for each pair, in order. */
  function ApplyAll(table: map<string, string>, assignments: seq<(string, string)>): map<string, string> {
    if assignments == [] then table
    else
      var n := |assignments| - 1;
      ApplyAll(table, assignments[..n])[assignments[n].0 := assignments[n].1]
  }

  /** `for synonym in synonyms: synonyms_flat[synonym.lower().strip()] = target`. */
  function ListAssignments(synonyms: seq<string>, target: string): seq<(string, string)> {
    if synonyms == [] then []
    else
      var n := |synonyms| - 1;
      ListAssignments(synonyms[..n], target) + [(Key(synonyms[n]), target)]
  }

  /** A dict-valued entry: every sub-list maps to its sub-canonical name. */
  function SubTableAssignments(subs: seq<(string, seq<string>)>): seq<(string, string)> {
    if subs == [] then []
    else
      var n := |subs| - 1;
      SubTableAssignments(subs[..n]) + ListAssignments(subs[n].1, subs[n].0)
  }

  /** One canonical name of a category. */
  function EntryAssignments(canonical: string, entry: SynonymEntry): seq<(string, string)> {
    match entry
    case SubTable(subs) => SubTableAssignments(subs)
    case Synonyms(synonyms) => ListAssignments(synonyms, canonical)
  }

  /** All canonical names of one category. */
  function CategoryAssignments(entries: seq<(string, SynonymEntry)>): seq<(string, string)> {
    if entries == [] then []
    else
      var n := |entries| - 1;
      CategoryAssignments(entries[..n]) + EntryAssignments(entries[n].0, entries[n].1)
  }

  /** The whole file, category by category. */
  function Assignments(nested: Nested): seq<(string, string)> {
    if nested == [] then []
    else
      var n := |nested| - 1;
      Assignments(nested[..n]) + CategoryAssignments(nested[n].1)
  }

  lemma {:induction false} ApplyAllConcat(table: map<string, string>, a: seq<(string, string)>, b: seq<(string, string)>)
    ensures ApplyAll(table, a + b) == ApplyAll(ApplyAll(table, a), b)
  {
    if b != [] {
      var n := |b| - 1;
      assert (a + b)[..|a| + n] == a + b[..n];
      ApplyAllConcat(table, a, b[..n]);
    } else {
      assert a + b == a;
    }
  }

  lemma ApplyAllStep(table: map<string, string>, assignments: seq<(string, string)>, a: (string, string))
    ensures ApplyAll(table, assignments + [a]) == ApplyAll(table, assignments)[a.0 := a.1]
  {
    assert (assignments + [a])[..|assignments|] == assignments;
  }

  lemma ListAssignmentsStep(synonyms: seq<string>, target: string, i: nat)
    requires i < |synonyms|
    ensures ListAssignments(synonyms[..i + 1], target) == ListAssignments(synonyms[..i], target) + [(Key(synonyms[i]), target)]
  {
    assert synonyms[..i + 1][..i] == synonyms[..i];
  }

  // ---------------------------------------------------------------------
  // The module-level loops that fill `synonyms_flat`
  // ---------------------------------------------------------------------

  /** The innermost loop, over one list of synonyms. */
  method AddSynonyms(table: map<string, string>, synonyms: seq<string>, target: string)
    returns (r: map<string, string>)
    ensures r == ApplyAll(table, ListAssignments(synonyms, target))
  {
    r := table;
    var i := 0;
    while i < |synonyms|
      invariant 0 <= i <= |synonyms|
      invariant r == ApplyAll(table, ListAssignments(synonyms[..i], target))
    {
      var key := Key(synonyms[i]);
      ListAssignmentsStep(synonyms, target, i);
      ApplyAllStep(table, ListAssignments(synonyms[..i], target), (key, target));
      r := r[key := target];
      i := i + 1;
    }
    assert synonyms[..i] == synonyms;
  }

  /** The body of `for canonical, synonyms in entries.items()`. */
  method AddEntry(table: map<string, string>, canonical: string, entry: SynonymEntry)
    returns (r: map<string, string>)
    ensures r == ApplyAll(table, EntryAssignments(canonical, entry))
  {
    match entry
    case Synonyms(synonyms) =>
      r := AddSynonyms(table, synonyms, canonical);
    case SubTable(subs) =>
      r := table;
      var i := 0;
      while i < |subs|
        invariant 0 <= i <= |subs|
        invariant r == ApplyAll(table, SubTableAssignments(subs[..i]))
      {
        assert subs[..i + 1][..i] == subs[..i];
        ApplyAllConcat(table, SubTableAssignments(subs[..i]), ListAssignments(subs[i].1, subs[i].0));
        r := AddSynonyms(r, subs[i].1, subs[i].0);
        i := i + 1;
      }
      assert subs[..i] == subs;
  }

  /** The body of `for category, entries in nested_synonyms.items()`. */
  method AddCategory(table: map<string, string>, entries: seq<(string, SynonymEntry)>)
    returns (r: map<string, string>)
    ensures r == ApplyAll(table, CategoryAssignments(entries))
  {
    r := table;
    var i := 0;
    while i < |entries|
      invariant 0 <= i <= |entries|
      invariant r == ApplyAll(table, CategoryAssignments(entries[..i]))
    {
      assert entries[..i + 1][..i] == entries[..i];
      ApplyAllConcat(table, CategoryAssignments(entries[..i]), EntryAssignments(entries[i].0, entries[i].1));
      r := AddEntry(r, entries[i].0, entries[i].1);
      i := i + 1;
    }
    assert entries[..i] == entries;
  }

  /** Builds `synonyms_flat` from `synonyms.json`. */
  method FlattenSynonyms(nested: Nested) returns (table: map<string, string>)
    ensures table == ApplyAll(map[], Assignments(nested))
  {
    table := map[];
    var i := 0;
    while i < |nested|
      invariant 0 <= i <= |nested|
      invariant table == ApplyAll(map[], Assignments(nested[..i]))
    {
      assert nested[..i + 1][..i] == nested[..i];
      ApplyAllConcat(map[], Assignments(nested[..i]), CategoryAssignments(nested[i].1));
      table := AddCategory(table, nested[i].1);
      i := i + 1;
    }
    assert nested[..i] == nested;
  }

  // ---------------------------------------------------------------------
  // What the table holds
  // ---------------------------------------------------------------------

  /** The last assignment to a key decides its value: a synonym listed
      again later overwrites the earlier entry. */
  lemma {:induction false} ApplyAllLast(table: map<string, string>, assignments: seq<(string, string)>, i: nat)
    requires i < |assignments|
    requires forall j :: i < j < |assignments| ==> assignments[j].0 != assignments[i].0
    ensures assignments[i].0 in ApplyAll(table, assignments)
    ensures ApplyAll(table, assignments)[assignments[i].0] == assignments[i].1
  {
    var n := |assignments| - 1;
    if i < n {
      ApplyAllLast(table, assignments[..n], i);
    }
  }

  /** Every key of the result was assigned, or was there before, and holds
      a value assigned to it or its old value. */
  lemma {:induction false} ApplyAllValues(table: map<string, string>, assignments: seq<(string, string)>, k: string)
    ensures k in ApplyAll(table, assignments) <==> k in table || exists a :: a in assignments && a.0 == k
    ensures k in ApplyAll(table, assignments) ==>
      (k, ApplyAll(table, assignments)[k]) in assignments || (k in table && ApplyAll(table, assignments)[k] == table[k])
  {
    if assignments != [] {
      var n := |assignments| - 1;
      ApplyAllValues(table, assignments[..n], k);
      assert assignments == assignments[..n] + [assignments[n]];
      if exists a :: a in assignments && a.0 == k {
        var a :| a in assignments && a.0 == k;
        if a != assignments[n] {
          assert a in assignments[..n];
        }
      }
    }
  }

  /** `s` is a synonym whose key is `k`. */
  function KeysTo(k: string): string -> bool {
    (s: string) => Key(s) == k
  }

  /** `(key, name)` is listed for `synonyms` under `name`. */
  predicate FromList(synonyms: seq<string>, name: string, a: (string, string)) {
    a.1 == name && Any(synonyms, KeysTo(a.0))
  }

  /** The sub-list of a dict-valued entry lists `(key, name)`. */
  function SubLists(a: (string, string)): ((string, seq<string>)) -> bool {
    (sub: (string, seq<string>)) => FromList(sub.1, sub.0, a)
  }

  /** `(key, name)` is listed by a canonical entry: a list maps to the
      canonical name, a dict to one of its sub-canonical names. */
  predicate FromEntry(canonical: string, entry: SynonymEntry, a: (string, string)) {
    match entry
    case Synonyms(synonyms) => FromList(synonyms, canonical, a)
    case SubTable(subs) => Any(subs, SubLists(a))
  }

  /** The canonical entry lists `(key, name)`. */
  function EntryLists(a: (string, string)): ((string, SynonymEntry)) -> bool {
    (e: (string, SynonymEntry)) => FromEntry(e.0, e.1, a)
  }

  predicate FromCategory(entries: seq<(string, SynonymEntry)>, a: (string, string)) {
    Any(entries, EntryLists(a))
  }

  /** The category lists `(key, name)`. */
  function CategoryLists(a: (string, string)): ((string, seq<(string, SynonymEntry)>)) -> bool {
    (c: (string, seq<(string, SynonymEntry)>)) => FromCategory(c.1, a)
  }

  /** `(key, name)` is listed somewhere in `synonyms.json`. */
  predicate FromNested(nested: Nested, a: (string, string)) {
    Any(nested, CategoryLists(a))
  }

  lemma {:induction false} ListAssignmentsMembers(synonyms: seq<string>, name: string, a: (string, string))
    ensures a in ListAssignments(synonyms, name) <==> FromList(synonyms, name, a)
  {
    if synonyms != [] {
      var n := |synonyms| - 1;
      ListAssignmentsMembers(synonyms[..n], name, a);
      AnyStep(synonyms, KeysTo(a.0));
    }
  }

  lemma {:induction false} SubTableMembers(subs: seq<(string, seq<string>)>, a: (string, string))
    ensures a in SubTableAssignments(subs) <==> Any(subs, SubLists(a))
  {
    if subs != [] {
      var n := |subs| - 1;
      SubTableMembers(subs[..n], a);
      ListAssignmentsMembers(subs[n].1, subs[n].0, a);
      AnyStep(subs, SubLists(a));
    }
  }

  lemma EntryMembers(canonical: string, entry: SynonymEntry, a: (string, string))
    ensures a in EntryAssignments(canonical, entry) <==> FromEntry(canonical, entry, a)
  {
    match entry
    case Synonyms(synonyms) => ListAssignmentsMembers(synonyms, canonical, a);
    case SubTable(subs) => SubTableMembers(subs, a);
  }

  lemma {:induction false} CategoryMembers(entries: seq<(string, SynonymEntry)>, a: (string, string))
    ensures a in CategoryAssignments(entries) <==> FromCategory(entries, a)
  {
    if entries != [] {
      var n := |entries| - 1;
      CategoryMembers(entries[..n], a);
      EntryMembers(entries[n].0, entries[n].1, a);
      AnyStep(entries, EntryLists(a));
    }
  }

  lemma {:induction false} AssignmentsMembers(nested: Nested, a: (string, string))
    ensures a in Assignments(nested) <==> FromNested(nested, a)
  {
    if nested != [] {
      var n := |nested| - 1;
      AssignmentsMembers(nested[..n], a);
      CategoryMembers(nested[n].1, a);
      AnyStep(nested, CategoryLists(a));
    }
  }

  /** The flattened table has an entry for exactly the keys of the
      synonyms the file lists, and each entry maps to a name under which
      that synonym is listed: the canonical name for a list, the
      sub-canonical name for a dict. */
  lemma FlatTable(nested: Nested, k: string)
    ensures var table := ApplyAll(map[], Assignments(nested));
      && (k in table <==> exists name :: FromNested(nested, (k, name)))
      && (k in table ==> FromNested(nested, (k, table[k])))
  {
    var table := ApplyAll(map[], Assignments(nested));
    ApplyAllValues(map[], Assignments(nested), k);
    if k in table {
      AssignmentsMembers(nested, (k, table[k]));
    }
    if exists name :: FromNested(nested, (k, name)) {
      var name :| FromNested(nested, (k, name));
      AssignmentsMembers(nested, (k, name));
    }
  }

  // ---------------------------------------------------------------------
  // normalize_test_name
  // ---------------------------------------------------------------------

  /** The dict `normalize_test_name` returns. */
  datatype NormResult = NormResult(
    originalName: string,
    canonicalName: string,
    category: Option<string>,
    normalized: bool)

  /** `normalize_test_name(name)` against `synonyms_flat` and
      `categories_map`. An empty canonical or category is falsy in Python
      and counts as not found. */
  function Normalize(synonyms: map<string, string>, categories: map<string, string>, name: string): NormResult {
    var key := Key(name);
    var found := key in synonyms && synonyms[key] != "";
    var category :=
      if found && synonyms[key] in categories && categories[synonyms[key]] != ""
      then Some(categories[synonyms[key]]) else None;
    NormResult(name, if found then synonyms[key] else name, category, found)
  }

  /** The original name is kept; a name is normalised exactly when its key
      maps to a non-empty canonical, which then is the canonical name (else
      the original name stands in); a category is reported exactly for a
      normalised name whose canonical has a non-empty category, and it is
      that category. */
  lemma NormalizeSpec(synonyms: map<string, string>, categories: map<string, string>, name: string)
    ensures var r := Normalize(synonyms, categories, name);
      && r.originalName == name
      && (r.normalized <==> Key(name) in synonyms && synonyms[Key(name)] != "")
      && (r.normalized ==> r.canonicalName == synonyms[Key(name)])
      && (!r.normalized ==> r.canonicalName == name && r.category == None)
      && (r.category.Some? <==>
            r.normalized && r.canonicalName in categories && categories[r.canonicalName] != "")
      && (r.category.Some? ==> r.category.value == categories[r.canonicalName])
  {
  }

  /** Case and surrounding whitespace do not matter: a name, its lowercase
      form and its stripped form normalise alike. */
  lemma NormalizeIgnoresCaseAndPadding(synonyms: map<string, string>, categories: map<string, string>, name: string)
    ensures Key(Text.Lower(name)) == Key(name) && Key(Text.Strip(name)) == Key(name)
    ensures var r := Normalize(synonyms, categories, name);
      && Normalize(synonyms, categories, Text.Lower(name)).(originalName := name, canonicalName := r.canonicalName) == r
      && Normalize(synonyms, categories, Text.Strip(name)).(originalName := name, canonicalName := r.canonicalName) == r
      && (r.normalized ==>
            && Normalize(synonyms, categories, Text.Lower(name)).canonicalName == r.canonicalName
            && Normalize(synonyms, categories, Text.Strip(name)).canonicalName == r.canonicalName)
  {
    Text.LowerIdempotent(name);
    Text.StripLower(name);
    Text.StripIdempotent(Text.Lower(name));
  }
}
