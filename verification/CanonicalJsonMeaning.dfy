/**
 * The normal form is exactly the value without its key order and undefined fields, so
 * the canonical text is shared by the values that are equal and by no others.
 */
module CanonicalJsonMeaning {
  import opened CanonicalJson
  import opened CanonicalJsonLaws
  import opened CodeUnits

  /** The first text ends, or its unit is the smaller one, where the two first differ. */
  ghost predicate SmallerAt(a: Text, b: Text, n: nat) {
    n <= |a| && n < |b| && a[..n] == b[..n] && (n == |a| || a[n] < b[n])
  }

  /** The order of the keys is that of their code units, a proper prefix first. */
  lemma {:induction false} LessIsCodeUnitOrder(a: Text, b: Text)
    ensures Less(a, b) <==> exists n: nat :: SmallerAt(a, b, n)
  {
    if a != [] && b != [] && a[0] == b[0] {
      LessIsCodeUnitOrder(a[1..], b[1..]);
      if n: nat :| SmallerAt(a[1..], b[1..], n) {
        assert a[..n + 1] == [a[0]] + a[1..][..n] && b[..n + 1] == [b[0]] + b[1..][..n];
        assert SmallerAt(a, b, n + 1);
      }
      if n: nat :| SmallerAt(a, b, n) {
        assert n > 0;
        assert a[1..][..n - 1] == a[..n][1..] && b[1..][..n - 1] == b[..n][1..];
        assert SmallerAt(a[1..], b[1..], n - 1);
      }
    } else if Less(a, b) {
      assert SmallerAt(a, b, 0);
    }
  }

  lemma {:induction false} LessIsTotal(a: Text, b: Text)
    ensures a == b || Less(a, b) || Less(b, a)
  {
    if a != [] && b != [] && a[0] == b[0] {
      LessIsTotal(a[1..], b[1..]);
      assert a == [a[0]] + a[1..] && b == [b[0]] + b[1..];
    }
  }

  lemma {:induction false} LessIsTransitive(a: Text, b: Text, c: Text)
    requires Less(a, b) && Less(b, c)
    ensures Less(a, c)
  {
    if a != [] && a[0] == b[0] == c[0] {
      LessIsTransitive(a[1..], b[1..], c[1..]);
    }
  }

  // ---------- What can be printed ----------

  /** Undefined is nowhere but in a field, where it is dropped. */
  predicate Serializable(j: Json) {
    match j
    case Undefined => false
    case Array(items) => forall i :: 0 <= i < |items| ==> Serializable(items[i])
    case Object(entries) => forall i :: 0 <= i < |entries| ==> entries[i].item.Undefined? || Serializable(entries[i].item)
    case _ => true
  }

  lemma {:induction false} ItemsPrintExactly(items: seq<Json>)
    ensures PrintItems(items).Success? <==> forall i :: 0 <= i < |items| ==> Serializable(items[i])
  {
    hide Serializable;
    if items != [] {
      PrintsExactly(items[0]);
      ItemsPrintExactly(items[1..]);
      assert forall i :: 1 <= i < |items| ==> items[i] == items[1..][i - 1];
    }
  }

  lemma {:induction false} EntriesPrintExactly(entries: seq<Keyed<Json>>)
    ensures PrintEntries(entries).Success? <==>
            forall i :: 0 <= i < |entries| ==> entries[i].item.Undefined? || Serializable(entries[i].item)
  {
    hide Serializable;
    if entries != [] {
      PrintsExactly(entries[0].item);
      EntriesPrintExactly(entries[1..]);
      assert forall i :: 1 <= i < |entries| ==> entries[i] == entries[1..][i - 1];
    }
  }

  lemma {:induction false} PrintsExactly(j: Json)
    ensures Print(j).Success? <==> Serializable(j)
  {
    match j
    case Array(items) => ItemsPrintExactly(items);
    case Object(entries) => EntriesPrintExactly(entries);
    case _ =>
  }

  // ---------- Values in normal form ----------

  predicate Ascending(entries: seq<Keyed<Json>>) {
    forall i, j :: 0 <= i < j < |entries| ==> Less(entries[i].key, entries[j].key)
  }

  predicate AllDefined(entries: seq<Keyed<Json>>) {
    forall i :: 0 <= i < |entries| ==> !entries[i].item.Undefined?
  }

  predicate IsNormal(j: Json) {
    match j
    case Array(items) => forall i :: 0 <= i < |items| ==> IsNormal(items[i])
    case Object(entries) =>
      Ascending(entries) && AllDefined(entries) && forall i :: 0 <= i < |entries| ==> IsNormal(entries[i].item)
    case _ => true
  }

  predicate AllNormal(entries: seq<Keyed<Json>>) {
    AllDefined(entries) && forall i :: 0 <= i < |entries| ==> IsNormal(entries[i].item)
  }

  predicate NewKey(key: Text, entries: seq<Keyed<Json>>) {
    forall i :: 0 <= i < |entries| ==> entries[i].key != key
  }

  lemma {:induction false} InsertKeepsNew(key: Text, e: Keyed<Json>, sorted: seq<Keyed<Json>>)
    requires NewKey(key, sorted) && e.key != key
    ensures NewKey(key, InsertByKey(e, sorted))
  {
    if sorted != [] && Less(sorted[0].key, e.key) {
      InsertKeepsNew(key, e, sorted[1..]);
    }
  }

  lemma {:induction false} SortKeepsNew(key: Text, entries: seq<Keyed<Json>>)
    requires NewKey(key, entries)
    ensures NewKey(key, SortByKey(entries))
  {
    if entries != [] {
      SortKeepsNew(key, entries[1..]);
      InsertKeepsNew(key, entries[0], SortByKey(entries[1..]));
    }
  }

  lemma {:induction false} InsertKeepsAscending(e: Keyed<Json>, sorted: seq<Keyed<Json>>)
    requires Ascending(sorted) && NewKey(e.key, sorted)
    ensures Ascending(InsertByKey(e, sorted))
    ensures forall low :: (forall i :: 0 <= i < |sorted| ==> Less(low, sorted[i].key)) && Less(low, e.key) ==>
              forall i :: 0 <= i < |InsertByKey(e, sorted)| ==> Less(low, InsertByKey(e, sorted)[i].key)
  {
    if sorted != [] {
      LessIsTotal(sorted[0].key, e.key);
      if Less(sorted[0].key, e.key) {
        InsertKeepsAscending(e, sorted[1..]);
      } else {
        forall i | 0 < i < |sorted| ensures Less(e.key, sorted[i].key) {
          LessIsTransitive(e.key, sorted[0].key, sorted[i].key);
        }
      }
    }
  }

  lemma {:induction false} InsertKeepsNormal(e: Keyed<Json>, sorted: seq<Keyed<Json>>)
    requires AllNormal(sorted) && IsNormal(e.item) && !e.item.Undefined?
    ensures AllNormal(InsertByKey(e, sorted))
  {
    hide IsNormal;
    if sorted != [] && Less(sorted[0].key, e.key) {
      InsertKeepsNormal(e, sorted[1..]);
    }
  }

  lemma {:induction false} SortMakesNormal(entries: seq<Keyed<Json>>)
    requires AllNormal(entries) && UniqueKeys(entries)
    ensures AllNormal(SortByKey(entries)) && Ascending(SortByKey(entries))
  {
    hide IsNormal;
    if entries != [] {
      SortMakesNormal(entries[1..]);
      SortKeepsNew(entries[0].key, entries[1..]);
      InsertKeepsAscending(entries[0], SortByKey(entries[1..]));
      InsertKeepsNormal(entries[0], SortByKey(entries[1..]));
    }
  }

  lemma {:induction false} NormalItemsAreNormal(items: seq<Json>)
    requires forall i :: 0 <= i < |items| ==> WellFormed(items[i])
    ensures forall i :: 0 <= i < |items| ==> IsNormal(NormalItems(items)[i])
  {
    hide IsNormal;
    if items != [] {
      NormalIsNormal(items[0]);
      NormalItemsAreNormal(items[1..]);
    }
  }

  lemma {:induction false} NormalEntriesAreNormal(entries: seq<Keyed<Json>>)
    requires UniqueKeys(entries) && forall i :: 0 <= i < |entries| ==> WellFormed(entries[i].item)
    ensures AllNormal(NormalEntries(entries)) && UniqueKeys(NormalEntries(entries))
    ensures forall key :: NewKey(key, entries) ==> NewKey(key, NormalEntries(entries))
  {
    hide IsNormal;
    if entries != [] {
      NormalEntriesAreNormal(entries[1..]);
      NormalIsNormal(entries[0].item);
      assert NewKey(entries[0].key, entries[1..]);
      forall key | NewKey(key, entries) ensures NewKey(key, NormalEntries(entries)) {
        assert NewKey(key, entries[1..]);
      }
    }
  }

  lemma {:induction false} NormalIsNormal(j: Json)
    requires WellFormed(j)
    ensures IsNormal(Normal(j)) && Normal(j).Undefined? == j.Undefined?
  {
    match j
    case Array(items) => NormalItemsAreNormal(items);
    case Object(entries) =>
      NormalEntriesAreNormal(entries);
      SortMakesNormal(NormalEntries(entries));
    case _ =>
  }

  // ---------- Normalizing keeps the meaning ----------

  lemma {:induction false} InsertFields(e: Keyed<Json>, sorted: seq<Keyed<Json>>)
    requires NewKey(e.key, sorted) && AllDefined(sorted) && !e.item.Undefined?
    ensures Fields(InsertByKey(e, sorted)) == Fields(sorted)[e.key := Meaning(e.item)]
  {
    if sorted != [] && Less(sorted[0].key, e.key) {
      InsertFields(e, sorted[1..]);
      assert InsertByKey(e, sorted)[1..] == InsertByKey(e, sorted[1..]);
    } else {
      assert ([e] + sorted)[1..] == sorted;
    }
  }

  lemma {:induction false} SortFields(entries: seq<Keyed<Json>>)
    requires AllNormal(entries) && UniqueKeys(entries)
    ensures Fields(SortByKey(entries)) == Fields(entries)
  {
    hide IsNormal;
    if entries != [] {
      SortFields(entries[1..]);
      SortKeepsNew(entries[0].key, entries[1..]);
      SortMakesNormal(entries[1..]);
      InsertFields(entries[0], SortByKey(entries[1..]));
    }
  }

  lemma {:induction false} NormalItemsKeepMeaning(items: seq<Json>)
    requires forall i :: 0 <= i < |items| ==> WellFormed(items[i])
    ensures Meanings(NormalItems(items)) == Meanings(items)
  {
    if items != [] {
      NormalKeepsMeaning(items[0]);
      NormalItemsKeepMeaning(items[1..]);
      assert NormalItems(items)[1..] == NormalItems(items[1..]);
    }
  }

  lemma {:induction false} NormalEntriesKeepFields(entries: seq<Keyed<Json>>)
    requires forall i :: 0 <= i < |entries| ==> WellFormed(entries[i].item)
    ensures Fields(NormalEntries(entries)) == Fields(entries)
  {
    if entries != [] {
      NormalEntriesKeepFields(entries[1..]);
      if !entries[0].item.Undefined? {
        NormalKeepsMeaning(entries[0].item);
        assert NormalEntries(entries)[1..] == NormalEntries(entries[1..]);
      }
    }
  }

  lemma {:induction false} NormalKeepsMeaning(j: Json)
    requires WellFormed(j)
    ensures Meaning(Normal(j)) == Meaning(j)
  {
    match j
    case Array(items) => NormalItemsKeepMeaning(items);
    case Object(entries) =>
      NormalEntriesAreNormal(entries);
      SortFields(NormalEntries(entries));
      NormalEntriesKeepFields(entries);
    case _ =>
  }

  // ---------- The meaning determines the normal form ----------

  lemma {:induction false} FieldKeys(entries: seq<Keyed<Json>>)
    requires AllDefined(entries)
    ensures forall key :: key in Fields(entries) <==> !NewKey(key, entries)
  {
    if entries != [] {
      FieldKeys(entries[1..]);
      forall key ensures key in Fields(entries) <==> !NewKey(key, entries) {
        assert NewKey(key, entries) <==> key != entries[0].key && NewKey(key, entries[1..]);
      }
    }
  }

  /** The first of the ascending keys is the least key of the map. */
  lemma LeastKey(a: seq<Keyed<Json>>, b: seq<Keyed<Json>>)
    requires Ascending(a) && Ascending(b) && AllDefined(a) && AllDefined(b)
    requires Fields(a) == Fields(b)
    ensures a == [] <==> b == []
    ensures a != [] && b != [] ==> a[0].key == b[0].key
  {
    FieldKeys(a);
    FieldKeys(b);
    assert a != [] ==> !NewKey(a[0].key, a);
    assert b != [] ==> !NewKey(b[0].key, b);
    if a != [] && b != [] {
      var i :| 0 <= i < |b| && b[i].key == a[0].key;
      var k :| 0 <= k < |a| && a[k].key == b[0].key;
      LessIsAsymmetric(a[0].key, b[0].key);
    }
  }

  lemma FirstIsNew(entries: seq<Keyed<Json>>)
    requires entries != [] && Ascending(entries)
    ensures NewKey(entries[0].key, entries[1..])
  {
    forall i | 0 < i < |entries| ensures entries[i].key != entries[0].key {
      LessIsAsymmetric(entries[0].key, entries[i].key);
    }
  }

  lemma RemoveAdded(m: map<Text, Value>, key: Text, value: Value)
    requires key !in m
    ensures m[key := value] - {key} == m
  {
  }

  lemma WithoutFirst(entries: seq<Keyed<Json>>)
    requires entries != [] && Ascending(entries) && AllDefined(entries)
    ensures Fields(entries[1..]) == Fields(entries) - {entries[0].key}
  {
    var rest, key := entries[1..], entries[0].key;
    FirstIsNew(entries);
    FieldKeys(rest);
    RemoveAdded(Fields(rest), key, Meaning(entries[0].item));
  }

  lemma {:induction false} MeaningsDetermineItems(a: seq<Json>, b: seq<Json>)
    requires forall i :: 0 <= i < |a| ==> IsNormal(a[i])
    requires forall i :: 0 <= i < |b| ==> IsNormal(b[i])
    requires Meanings(a) == Meanings(b)
    ensures a == b
  {
    if a != [] {
      assert |b| == |Meanings(b)| == |a|;
      assert Meanings(a)[0] == Meanings(b)[0];
      MeaningDeterminesNormal(a[0], b[0]);
      assert Meanings(a)[1..] == Meanings(a[1..]) && Meanings(b)[1..] == Meanings(b[1..]);
      MeaningsDetermineItems(a[1..], b[1..]);
      assert a == [a[0]] + a[1..] && b == [b[0]] + b[1..];
    } else {
      assert |b| == |Meanings(b)| == 0;
    }
  }

  lemma {:induction false} FieldsDetermineEntries(a: seq<Keyed<Json>>, b: seq<Keyed<Json>>)
    requires AllNormal(a) && AllNormal(b) && Ascending(a) && Ascending(b)
    requires Fields(a) == Fields(b)
    ensures a == b
  {
    LeastKey(a, b);
    if a != [] {
      assert Fields(a)[a[0].key] == Meaning(a[0].item) && Fields(b)[b[0].key] == Meaning(b[0].item);
      MeaningDeterminesNormal(a[0].item, b[0].item);
      WithoutFirst(a);
      WithoutFirst(b);
      FieldsDetermineEntries(a[1..], b[1..]);
      assert a == [a[0]] + a[1..] && b == [b[0]] + b[1..];
    }
  }

  lemma {:induction false} MeaningDeterminesNormal(a: Json, b: Json)
    requires IsNormal(a) && IsNormal(b) && Meaning(a) == Meaning(b)
    ensures a == b
  {
    match a
    case Array(items) => MeaningsDetermineItems(items, b.items);
    case Object(entries) => FieldsDetermineEntries(entries, b.entries);
    case _ =>
  }

  /**
   * Two values print the same canonical text exactly when they mean the same: whatever
   * order their keys were built in, and whichever fields were left undefined.
   */
  lemma SameTextIffSameMeaning(a: Json, b: Json)
    requires WellFormed(a) && WellFormed(b)
    requires Print(a).Success? && Print(b).Success?
    ensures Print(a) == Print(b) <==> Meaning(a) == Meaning(b)
  {
    PrintIsInjective(a, b);
    NormalIsNormal(a);
    NormalIsNormal(b);
    NormalKeepsMeaning(a);
    NormalKeepsMeaning(b);
    if Meaning(a) == Meaning(b) {
      MeaningDeterminesNormal(Normal(a), Normal(b));
    }
  }
}
