/** Comparing two configurations section by section (qgis_config.c). */
module ConfigDiff {
  import opened Options

  datatype Entry = Entry(key: string, value: string)

  /** A section as the ini parser lists it: keys in file order, each key once. */
  datatype Section = Section(name: string, entries: seq<Entry>)

  type Dictionary = seq<Section>

  predicate DistinctKeys(es: seq<Entry>) {
    forall i, j :: 0 <= i < j < |es| ==> es[i].key != es[j].key
  }

  predicate DistinctNames(d: Dictionary) {
    forall i, j :: 0 <= i < j < |d| ==> d[i].name != d[j].name
  }

  predicate WellFormed(d: Dictionary) {
    && DistinctNames(d)
    && (forall i :: 0 <= i < |d| ==> DistinctKeys(d[i].entries))
  }

  // What a section and a configuration mean.

  function Keys(es: seq<Entry>): set<string> {
    set i | 0 <= i < |es| :: es[i].key
  }

  predicate Has(es: seq<Entry>, e: Entry) {
    e in es
  }

  /** Two sections mean the same: the same keys with the same values. */
  ghost predicate SameMeaning(a: seq<Entry>, b: seq<Entry>) {
    forall e :: Has(a, e) <==> Has(b, e)
  }

  function Names(d: Dictionary): set<string> {
    set i | 0 <= i < |d| :: d[i].name
  }

  function EntriesOf(d: Dictionary, name: string): seq<Entry> {
    if d == [] then [] else if d[0].name == name then d[0].entries else EntriesOf(d[1..], name)
  }

  lemma {:induction false} EntriesAt(d: Dictionary, i: nat)
    requires DistinctNames(d) && i < |d|
    ensures EntriesOf(d, d[i].name) == d[i].entries
  {
    if i > 0 {
      assert d[1..][i - 1] == d[i];
      EntriesAt(d[1..], i - 1);
    }
  }

  lemma EntriesDistinct(d: Dictionary, name: string)
    requires WellFormed(d)
    ensures DistinctKeys(EntriesOf(d, name))
  {
    if d != [] && d[0].name != name {
      EntriesDistinct(d[1..], name);
    }
  }

  // Comparing two sections.

  lemma KeyCount(es: seq<Entry>)
    requires DistinctKeys(es)
    ensures |Keys(es)| == |es|
  {
    if es != [] {
      var n := |es| - 1;
      assert Keys(es) == Keys(es[..n]) + {es[n].key};
      KeyCount(es[..n]);
    }
  }

  lemma SubsetOfEqualSize(a: set<string>, b: set<string>)
    requires a <= b && |a| == |b|
    ensures a == b
  {
    if x :| x in b && x !in a {
      assert a <= b - {x};
      SubsetSize(a, b - {x});
    }
  }

  lemma SubsetSize(a: set<string>, b: set<string>)
    requires a <= b
    ensures |a| <= |b|
  {
    if x :| x in a {
      SubsetSize(a - {x}, b - {x});
    }
  }

  /** The pigeonhole step: with equally many keys it is enough to look up the old ones. */
  lemma Pigeonhole(a: seq<Entry>, b: seq<Entry>)
    requires DistinctKeys(a) && DistinctKeys(b) && |a| == |b|
    requires forall i :: 0 <= i < |a| ==> Has(b, a[i])
    ensures SameMeaning(a, b)
  {
    KeyCount(a);
    KeyCount(b);
    forall k | k in Keys(a)
      ensures k in Keys(b)
    {
      var i :| 0 <= i < |a| && a[i].key == k;
      assert Has(b, a[i]);
    }
    SubsetOfEqualSize(Keys(a), Keys(b));
    forall e | Has(b, e)
      ensures Has(a, e)
    {
      assert e.key in Keys(a);
      var i :| 0 <= i < |a| && a[i].key == e.key;
      assert Has(b, a[i]);
      var j :| 0 <= j < |b| && b[j] == a[i];
      var k :| 0 <= k < |b| && b[k] == e;
      assert j == k;
    }
  }

  lemma SameCount(a: seq<Entry>, b: seq<Entry>)
    requires DistinctKeys(a) && DistinctKeys(b) && SameMeaning(a, b)
    ensures |a| == |b|
  {
    KeyCount(a);
    KeyCount(b);
    forall k
      ensures k in Keys(a) <==> k in Keys(b)
    {
      if k in Keys(a) {
        var i :| 0 <= i < |a| && a[i].key == k;
        assert Has(a, a[i]) && Has(b, a[i]);
      }
      if k in Keys(b) {
        var i :| 0 <= i < |b| && b[i].key == k;
        assert Has(b, b[i]) && Has(a, b[i]);
      }
    }
    assert Keys(a) == Keys(b);
  }

  /** config_test_for_section_change: false exactly when the two sections mean the same. */
  method SectionChanged(olds: seq<Entry>, news: seq<Entry>) returns (changed: bool)
    requires DistinctKeys(olds) && DistinctKeys(news)
    ensures !changed <==> SameMeaning(olds, news)
  {
    var n := |olds|;
    if n != |news| {
      if SameMeaning(olds, news) {
        SameCount(olds, news);
      }
      return true;
    }
    var i := 0;
    while i < n
      invariant 0 <= i <= n
      invariant forall j :: 0 <= j < i ==> Has(news, olds[j])
    {
      var found := -1;
      var k := 0;
      while k < n && found < 0
        invariant 0 <= k <= n && -1 <= found < n
        invariant found >= 0 ==> news[found].key == olds[i].key
        invariant found < 0 ==> forall j :: 0 <= j < k ==> news[j].key != olds[i].key
        decreases n - k + if found < 0 then 1 else 0
      {
        if olds[i].key == news[k].key {
          found := k;
        } else {
          k := k + 1;
        }
      }
      if found < 0 || olds[i].value != news[found].value {
        MissingEntry(olds, news, i, found);
        return true;
      }
      i := i + 1;
    }
    Pigeonhole(olds, news);
    changed := false;
  }

  lemma MissingEntry(olds: seq<Entry>, news: seq<Entry>, i: nat, found: int)
    requires DistinctKeys(news) && i < |olds| && -1 <= found < |news|
    requires found < 0 ==> forall j :: 0 <= j < |news| ==> news[j].key != olds[i].key
    requires found >= 0 ==> news[found].key == olds[i].key && news[found].value != olds[i].value
    ensures !SameMeaning(olds, news)
  {
    assert Has(olds, olds[i]);
    forall j | 0 <= j < |news|
      ensures news[j] != olds[i]
    {
    }
    assert !Has(news, olds[i]);
  }

  // Comparing two configurations.

  datatype Diff = Diff(added: seq<string>, changed: seq<string>, deleted: seq<string>)

  /** iniparser_find_entry for a section name */
  method FindEntry(d: Dictionary, name: string) returns (found: bool)
    ensures found <==> name in Names(d)
  {
    var i := 0;
    while i < |d|
      invariant 0 <= i <= |d|
      invariant forall j :: 0 <= j < i ==> d[j].name != name
    {
      if d[i].name == name {
        assert name in Names(d);
        return true;
      }
      i := i + 1;
    }
    found := false;
  }

  predicate NoRepeats(s: seq<string>) {
    forall i, j :: 0 <= i < j < |s| ==> s[i] != s[j]
  }

  /** The three lists say what config_has_changed promises about two configurations. */
  ghost predicate Describes(diff: Diff, olds: Dictionary, news: Dictionary) {
    && (forall s :: s in diff.deleted <==> s in Names(olds) && s !in Names(news))
    && (forall s :: s in diff.added <==> s in Names(news) && s !in Names(olds))
    && (forall s :: s in diff.changed <==>
                      s in Names(olds) && s in Names(news) && !SameMeaning(EntriesOf(olds, s), EntriesOf(news, s)))
  }

  /** config_has_changed, before the lists become arrays. */
  method HasChanged(olds: Dictionary, news: Dictionary) returns (diff: Diff)
    requires WellFormed(olds) && WellFormed(news)
    ensures Describes(diff, olds, news)
    ensures NoRepeats(diff.added) && NoRepeats(diff.changed) && NoRepeats(diff.deleted)
  {
    var changed: seq<string>, deleted: seq<string>, added: seq<string> := [], [], [];
    var i := 0;
    while i < |olds|
      invariant 0 <= i <= |olds|
      invariant forall s :: s in deleted <==> s in Names(olds[..i]) && s !in Names(news)
      invariant forall s :: s in changed <==>
                              s in Names(olds[..i]) && s in Names(news) && !SameMeaning(EntriesOf(olds, s), EntriesOf(news, s))
      invariant NoRepeats(changed) && NoRepeats(deleted)
    {
      var name := olds[i].name;
      NamesStep(olds, i);
      EntriesAt(olds, i);
      var found := FindEntry(news, name);
      if found {
        EntriesDistinct(news, name);
        var c := SectionChanged(olds[i].entries, EntriesOf(news, name));
        if c {
          changed := changed + [name];
        }
      } else {
        deleted := deleted + [name];
      }
      i := i + 1;
    }
    assert olds[..i] == olds;
    i := 0;
    while i < |news|
      invariant 0 <= i <= |news|
      invariant forall s :: s in added <==> s in Names(news[..i]) && s !in Names(olds)
      invariant NoRepeats(added)
    {
      NamesStep(news, i);
      var found := FindEntry(olds, news[i].name);
      if !found {
        added := added + [news[i].name];
      }
      i := i + 1;
    }
    assert news[..i] == news;
    diff := Diff(added, changed, deleted);
  }

  lemma NamesStep(d: Dictionary, i: nat)
    requires WellFormed(d) && i < |d|
    ensures Names(d[..i + 1]) == Names(d[..i]) + {d[i].name}
    ensures d[i].name !in Names(d[..i])
  {
  }

  // From lists to arrays.

  function LastOf(list: seq<string>): seq<string> {
    if list == [] then [] else [list[|list| - 1]]
  }

  /** The strings before the first NULL. */
  function ReadArray(a: seq<Option<string>>): seq<string> {
    if a == [] || a[0].None? then [] else [a[0].value] + ReadArray(a[1..])
  }

  /** config_convert_list_to_array: the index stays at 0, so that of a list only its last section can
      be read from the array. */
  method ConvertListToArray(list: seq<string>) returns (a: array<Option<string>>)
    ensures a.Length == |list| + 1
    ensures ReadArray(a[..]) == LastOf(list)
  {
    a := new Option<string>[|list| + 1](_ => None);
    var i := 0;
    var rest := list;
    while rest != []
      invariant |rest| <= |list| && rest == list[|list| - |rest|..]
      invariant a[0] == if |rest| == |list| then None else Some(list[|list| - |rest| - 1])
      invariant forall k :: 0 < k < a.Length ==> a[k] == None
      decreases |rest|
    {
      a[i] := Some(rest[0]);
      rest := rest[1..];
    }
    if list != [] {
      assert a[..][1..] == a[1..] && a[1..][0] == None;
    }
  }

  /** The three lists as they arrive in the arrays. */
  function Arrived(diff: Diff): Diff {
    Diff(LastOf(diff.added), LastOf(diff.changed), LastOf(diff.deleted))
  }

  // Applying the difference.

  /** Shut down the deleted sections, restart the changed and start the new ones from the new
      configuration, keep the others as they are. */
  ghost function Patched(diff: Diff, olds: Dictionary, news: Dictionary): map<string, seq<Entry>> {
    map s | s in Names(olds) + Names(news) && s !in diff.deleted && (s in Names(olds) || s in diff.added) ::
      if s in diff.added || s in diff.changed then EntriesOf(news, s) else EntriesOf(olds, s)
  }

  /** The difference is a correct patch: the lists are disjoint, and applying them to the old
      configuration gives the new one. */
  lemma PatchIsCorrect(diff: Diff, olds: Dictionary, news: Dictionary)
    requires Describes(diff, olds, news)
    ensures forall s :: !(s in diff.added && s in diff.changed) && !(s in diff.added && s in diff.deleted)
                        && !(s in diff.changed && s in diff.deleted)
    ensures Patched(diff, olds, news).Keys == Names(news)
    ensures forall s :: s in Names(news) ==> SameMeaning(Patched(diff, olds, news)[s], EntriesOf(news, s))
  {
  }
}
