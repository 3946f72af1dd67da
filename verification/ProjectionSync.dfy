/** Deciding whether the projections still mirror the subscriptions (internal/adminapi/domain.go). */
module ProjectionSync {
  import opened Common
  import Spaces
  import opened Decimal

  datatype Record = Record(platform: string, externalID: string, subscriptionType: string, targetType: string,
                           targetExternalID: string, legacyKey: string, enabled: bool, options: string)

  datatype Projection = Projection(legacyKey: string, enabled: bool, options: string)

  /** Made from the fields: platform, id and type, a bar, target type and target id. */
  function DerivedKey(r: Record): string {
    r.platform + (":" + (r.externalID + (":" + (r.subscriptionType
    + ("|" + (r.targetType + (":" + r.targetExternalID)))))))
  }

  function LegacyRecordKey(r: Record): string {
    if !Spaces.Blank(r.legacyKey) then r.legacyKey else DerivedKey(r)
  }

  /** A stored key decides alone: whatever else two records hold, with the same one they have the same key. */
  lemma {:induction false} StoredKeyDecides(r: Record, s: Record)
    requires r.legacyKey == s.legacyKey && !Spaces.Blank(r.legacyKey)
    ensures LegacyRecordKey(r) == LegacyRecordKey(s) == r.legacyKey
  {
  }

  /** What is compared: a key, the flag and the options in canonical form. */
  datatype Entry = Entry(key: string, enabled: bool, options: string)

  function OfRecord(r: Record, canonical: string -> string): Entry {
    Entry(LegacyRecordKey(r), r.enabled, canonical(r.options))
  }

  function OfProjection(p: Projection, canonical: string -> string): Entry {
    Entry(p.legacyKey, p.enabled, canonical(p.options))
  }

  function OfRecords(records: seq<Record>, canonical: string -> string): (entries: seq<Entry>)
    ensures |entries| == |records| && forall i | 0 <= i < |records| :: entries[i] == OfRecord(records[i], canonical)
  {
    seq(|records|, i requires 0 <= i < |records| => OfRecord(records[i], canonical))
  }

  function OfProjections(current: seq<Projection>, canonical: string -> string): (entries: seq<Entry>)
    ensures |entries| == |current| && forall i | 0 <= i < |current| :: entries[i] == OfProjection(current[i], canonical)
  {
    seq(|current|, i requires 0 <= i < |current| => OfProjection(current[i], canonical))
  }

  /** Keys to entries; the last of equal keys wins. */
  function MapOf(entries: seq<Entry>): map<string, Entry> {
    if entries == [] then map[] else
    var last := entries[|entries| - 1];
    MapOf(entries[..|entries| - 1])[last.key := last]
  }

  /** Same length, and every wanted entry is there. */
  ghost predicate LooksCurrent(wanted: seq<Entry>, have: seq<Entry>) {
    && |wanted| == |have|
    && forall i | 0 <= i < |wanted| :: wanted[i].key in MapOf(have) && MapOf(have)[wanted[i].key] == wanted[i]
  }

  datatype Action = Failed | Kept | Rebuild

  lemma MapOfPrefix(entries: seq<Entry>, k: nat)
    requires k < |entries|
    ensures MapOf(entries[..k + 1]) == MapOf(entries[..k])[entries[k].key := entries[k]]
  {
    assert entries[..k + 1][..k] == entries[..k];
  }

  /** The comparison of one record with the projection under its key. */
  predicate Same(value: Projection, r: Record, canonical: string -> string) {
    value.enabled == r.enabled && canonical(value.options) == canonical(r.options)
  }

  /** byKey holds the projections of current, the last of equal keys. */
  ghost predicate Indexes(byKey: map<string, Projection>, current: seq<Projection>, canonical: string -> string) {
    && byKey.Keys == MapOf(OfProjections(current, canonical)).Keys
    && forall key | key in byKey :: OfProjection(byKey[key], canonical) == MapOf(OfProjections(current, canonical))[key]
  }

  lemma SameIsEntry(byKey: map<string, Projection>, records: seq<Record>, current: seq<Projection>,
                    canonical: string -> string, i: nat)
    requires Indexes(byKey, current, canonical) && i < |records| && LegacyRecordKey(records[i]) in byKey
    ensures
      var wanted, have := OfRecords(records, canonical)[i], MapOf(OfProjections(current, canonical));
      && wanted.key == LegacyRecordKey(records[i]) && wanted.key in have
      && (Same(byKey[wanted.key], records[i], canonical) <==> have[wanted.key] == wanted)
  {
    hide MapOf, LegacyRecordKey;
    var value := byKey[LegacyRecordKey(records[i])];
    var _ := OfProjection(value, canonical);
    MapOfKeys(OfProjections(current, canonical));
  }

  lemma AllSame(byKey: map<string, Projection>, records: seq<Record>, current: seq<Projection>,
                canonical: string -> string)
    requires Indexes(byKey, current, canonical) && |records| == |current|
    requires forall i | 0 <= i < |records| ::
      LegacyRecordKey(records[i]) in byKey && Same(byKey[LegacyRecordKey(records[i])], records[i], canonical)
    ensures LooksCurrent(OfRecords(records, canonical), OfProjections(current, canonical))
  {
    hide MapOf, LegacyRecordKey, Same, Indexes;
    forall i: nat | i < |records|
      ensures
        var wanted, have := OfRecords(records, canonical)[i], MapOf(OfProjections(current, canonical));
        wanted.key in have && have[wanted.key] == wanted
    {
      SameIsEntry(byKey, records, current, canonical, i);
    }
  }

  ghost predicate Mirrored(records: seq<Record>, current: seq<Projection>, canonical: string -> string) {
    LooksCurrent(OfRecords(records, canonical), OfProjections(current, canonical))
  }

  /** None is a failed read. canonical is the JSON decoder followed by the encoder. */
  method ReconcileProjection(records: Option<seq<Record>>, current: Option<seq<Projection>>,
                             canonical: string -> string)
    returns (action: Action)
    ensures action == Failed <==> records.None? || current.None?
    ensures action == Kept <==> (records.Some? && current.Some? && Mirrored(records.value, current.value, canonical))
  {
    hide LegacyRecordKey, MapOf, Same, Indexes, OfProjections;
    if records.None? || current.None? {
      return Failed;
    }
    var list, existing := records.value, current.value;
    if |list| != |existing| {
      return Rebuild;
    }
    var known := KnownKeys(existing, canonical);
    for k := 0 to |list|
      invariant forall i | 0 <= i < k :: LegacyRecordKey(list[i]) in known
    {
      if LegacyRecordKey(list[k]) !in known {
        assert OfRecords(list, canonical)[k].key !in MapOf(OfProjections(existing, canonical));
        return Rebuild;
      }
    }
    var byKey := ByKey(existing, canonical);
    assert byKey.Keys == known;
    for k := 0 to |list|
      invariant forall i | 0 <= i < k :: Same(byKey[LegacyRecordKey(list[i])], list[i], canonical)
    {
      if !Same(byKey[LegacyRecordKey(list[k])], list[k], canonical) {
        SameIsEntry(byKey, list, existing, canonical, k);
        return Rebuild;
      }
    }
    AllSame(byKey, list, existing, canonical);
    action := Kept;
  }

  method KnownKeys(current: seq<Projection>, canonical: string -> string) returns (known: set<string>)
    ensures known == MapOf(OfProjections(current, canonical)).Keys
  {
    ghost var have := OfProjections(current, canonical);
    known := {};
    for k := 0 to |current|
      invariant known == MapOf(have[..k]).Keys
    {
      MapOfPrefix(have, k);
      known := known + {current[k].legacyKey};
    }
    assert have[..|have|] == have;
  }

  method ByKey(current: seq<Projection>, canonical: string -> string) returns (byKey: map<string, Projection>)
    ensures Indexes(byKey, current, canonical)
  {
    ghost var have := OfProjections(current, canonical);
    byKey := map[];
    for k := 0 to |current|
      invariant byKey.Keys == MapOf(have[..k]).Keys
      invariant forall key | key in byKey :: OfProjection(byKey[key], canonical) == MapOf(have[..k])[key]
    {
      MapOfPrefix(have, k);
      byKey := byKey[current[k].legacyKey := current[k]];
    }
    assert have[..|have|] == have;
  }

  // ---- Exactness ----

  ghost predicate UniqueKeys(entries: seq<Entry>) {
    forall i, j | 0 <= i < j < |entries| :: entries[i].key != entries[j].key
  }

  lemma UniqueTail(entries: seq<Entry>, n: nat)
    requires UniqueKeys(entries) && n < |entries|
    ensures UniqueKeys(entries[..n]) && forall i | 0 <= i < n :: entries[..n][i].key != entries[n].key
  {
  }

  lemma {:induction false} MapOfUnique(entries: seq<Entry>)
    requires UniqueKeys(entries)
    ensures |MapOf(entries).Keys| == |entries|
    ensures forall i | 0 <= i < |entries| ::
      entries[i].key in MapOf(entries) && MapOf(entries)[entries[i].key] == entries[i]
  {
    hide MapOf, UniqueKeys;
    if entries == [] {
      EmptyMap();
    } else {
      var n := |entries| - 1;
      var before, last := entries[..n], entries[n];
      UniqueTail(entries, n);
      MapOfPrefix(entries, n);
      assert entries[..n + 1] == entries;
      MapOfUnique(before);
      MapOfKeys(before);
      assert last.key !in MapOf(before);
      assert MapOf(entries).Keys == MapOf(before).Keys + {last.key};
      forall i | 0 <= i < |entries|
        ensures entries[i].key in MapOf(entries) && MapOf(entries)[entries[i].key] == entries[i]
      {
        if i < n { assert entries[i] == before[i]; }
      }
    }
  }

  lemma EmptyMap()
    ensures MapOf([]) == map[]
  {
  }

  lemma {:induction false} MapOfKeys(entries: seq<Entry>)
    ensures forall key | key in MapOf(entries) ::
      MapOf(entries)[key] in entries && MapOf(entries)[key].key == key
  {
    if entries != [] {
      MapOfKeys(entries[..|entries| - 1]);
    }
  }

  lemma {:induction false} SubsetOfEqualSize(a: set<string>, b: set<string>)
    requires a <= b && |a| == |b|
    ensures a == b
  {
    assert |b - a| == 0;
  }

  ghost predicate SubMap(m: map<string, Entry>, n: map<string, Entry>) {
    forall key | key in m :: key in n && n[key] == m[key]
  }

  /** Entries with one key are equal. */
  ghost predicate Consistent(entries: seq<Entry>) {
    forall i | 0 <= i < |entries| :: entries[i].key in MapOf(entries) && MapOf(entries)[entries[i].key] == entries[i]
  }

  lemma {:induction false} MapOfHasKeys(entries: seq<Entry>)
    ensures forall i | 0 <= i < |entries| :: entries[i].key in MapOf(entries)
  {
    if entries != [] {
      var before := entries[..|entries| - 1];
      MapOfHasKeys(before);
      forall i | 0 <= i < |entries| ensures entries[i].key in MapOf(entries) {
        if i < |before| { assert entries[i] == before[i]; }
      }
    }
  }

  /** What the check accepts: equal counts, no record contradicting another, and every record mirrored. */
  lemma {:induction false} KeptIffMirrored(wanted: seq<Entry>, have: seq<Entry>)
    ensures LooksCurrent(wanted, have) <==>
      |wanted| == |have| && Consistent(wanted) && SubMap(MapOf(wanted), MapOf(have))
  {
    hide MapOf;
    MapOfKeys(wanted);
    MapOfHasKeys(wanted);
    if LooksCurrent(wanted, have) {
      forall key | key in MapOf(wanted) ensures key in MapOf(have) && MapOf(have)[key] == MapOf(wanted)[key] {
        var i :| 0 <= i < |wanted| && wanted[i] == MapOf(wanted)[key];
      }
      forall i | 0 <= i < |wanted| ensures MapOf(wanted)[wanted[i].key] == wanted[i] {
        assert MapOf(wanted)[wanted[i].key] == MapOf(have)[wanted[i].key];
      }
    }
  }

  /** What is kept is the same map exactly when both sides have equally many distinct keys. */
  lemma {:induction false} KeptIsSameMapIff(wanted: seq<Entry>, have: seq<Entry>)
    requires LooksCurrent(wanted, have)
    ensures MapOf(wanted) == MapOf(have) <==> |MapOf(wanted).Keys| == |MapOf(have).Keys|
  {
    hide MapOf, LooksCurrent;
    KeptIffMirrored(wanted, have);
    var w, h := MapOf(wanted), MapOf(have);
    assert w.Keys <= h.Keys;
    if |w.Keys| == |h.Keys| {
      SubsetOfEqualSize(w.Keys, h.Keys);
      assert forall key | key in h :: key in w.Keys;
    }
  }

  /** The same map is kept exactly when counts agree and no record contradicts another. */
  lemma {:induction false} SameMapIsKeptIff(wanted: seq<Entry>, have: seq<Entry>)
    requires MapOf(wanted) == MapOf(have)
    ensures LooksCurrent(wanted, have) <==> |wanted| == |have| && Consistent(wanted)
  {
    hide MapOf, LooksCurrent;
    KeptIffMirrored(wanted, have);
  }

  lemma {:induction false} MapOfSize(entries: seq<Entry>)
    ensures |MapOf(entries).Keys| <= |entries|
  {
    if entries != [] {
      var before, last := entries[..|entries| - 1], entries[|entries| - 1];
      MapOfSize(before);
      assert MapOf(entries).Keys == MapOf(before).Keys + {last.key};
    }
  }

  /** Unique record keys are enough: by counting, a one-sided check then finds every missing, extra and changed row. */
  lemma {:induction false} UniqueRecordsAreExact(wanted: seq<Entry>, have: seq<Entry>)
    requires UniqueKeys(wanted)
    ensures LooksCurrent(wanted, have) <==> |wanted| == |have| && MapOf(wanted) == MapOf(have)
  {
    hide MapOf, LooksCurrent, UniqueKeys;
    MapOfUnique(wanted);
    MapOfSize(have);
    KeptIffMirrored(wanted, have);
    if LooksCurrent(wanted, have) {
      SubKeys(MapOf(wanted), MapOf(have));
      KeptIsSameMapIff(wanted, have);
    }
  }

  lemma SubKeys(m: map<string, Entry>, n: map<string, Entry>)
    requires SubMap(m, n)
    ensures |m.Keys| <= |n.Keys|
  {
    assert m.Keys <= n.Keys;
    SubsetSize(m.Keys, n.Keys);
  }

  lemma {:induction false} SubsetSize(a: set<string>, b: set<string>)
    requires a <= b
    ensures |a| <= |b|
  {
    assert b == a + (b - a);
  }

  // ---- Characters in keys ----

  function Count(s: string, c: char): nat {
    if s == "" then 0 else (if s[0] == c then 1 else 0) + Count(s[1..], c)
  }

  ghost predicate Without(s: string, c: char) {
    forall i | 0 <= i < |s| :: s[i] != c
  }

  lemma {:induction false} CountConcat(a: string, b: string, c: char)
    ensures Count(a + b, c) == Count(a, c) + Count(b, c)
  {
    if a == "" {
      assert a + b == b;
    } else {
      assert (a + b)[1..] == a[1..] + b;
      CountConcat(a[1..], b, c);
    }
  }

  lemma {:induction false} WithoutIffNone(s: string, c: char)
    ensures Without(s, c) <==> Count(s, c) == 0
  {
    if s != "" {
      WithoutIffNone(s[1..], c);
      if s[0] != c && Without(s[1..], c) {
        forall i | 0 <= i < |s| ensures s[i] != c {
          if i > 0 { assert s[i] == s[1..][i - 1]; }
        }
      }
    }
  }

  lemma EachWithoutIffNone()
    ensures forall s, c :: Without(s, c) <==> Count(s, c) == 0
  {
    hide Without, Count;
    forall s, c ensures Without(s, c) <==> Count(s, c) == 0 { WithoutIffNone(s, c); }
  }

  /** Text before the first separator, and after it. */
  lemma SplitAt(a: string, b: string, a': string, b': string, c: char)
    requires Without(a, c) && Without(a', c) && a + ([c] + b) == a' + ([c] + b')
    ensures a == a' && b == b'
  {
    var s, s' := a + ([c] + b), a' + ([c] + b');
    assert s[|a|] == c && s'[|a'|] == c;
    forall i | 0 <= i < |a| ensures s[i] != c { assert s[i] == a[i]; }
    forall i | 0 <= i < |a'| ensures s'[i] != c { assert s'[i] == a'[i]; }
    assert s[..|a|] == a && s'[..|a'|] == a';
    assert s[|a| + 1..] == b && s'[|a'| + 1..] == b';
  }

  lemma {:induction false} CutFirst(s: string, c: char) returns (a: string, b: string)
    requires !Without(s, c)
    ensures s == a + ([c] + b) && Without(a, c)
  {
    if s[0] == c {
      a, b := "", s[1..];
      assert "" + ([c] + b) == [c] + b;
    } else {
      assert !Without(s[1..], c) by {
        var i :| 0 <= i < |s| && s[i] == c;
        assert s[1..][i - 1] == c;
      }
      a, b := CutFirst(s[1..], c);
      a := [s[0]] + a;
    }
  }

  lemma {:induction false} CutLast(s: string, c: char) returns (a: string, b: string)
    requires !Without(s, c)
    ensures s == a + ([c] + b) && Without(b, c)
  {
    var n := |s| - 1;
    if s[n] == c {
      a, b := s[..n], "";
    } else {
      assert !Without(s[..n], c) by {
        var i :| 0 <= i < |s| && s[i] == c;
        assert s[..n][i] == c;
      }
      a, b := CutLast(s[..n], c);
      b := b + [s[n]];
    }
  }

  /** A field cut in two, its second part moved to the next field, or the other way round. */
  lemma Shift(a: string, c: string, b: string, d: string, e: string, rest: string)
    ensures (a + (c + b)) + (d + (e + rest)) == a + (c + ((b + (d + e)) + rest))
  {
  }

  // ---- Derived keys ----

  /** Equal but for the stored key and what is stored under it. */
  predicate SameFields(r: Record, s: Record) {
    s == r.(legacyKey := s.legacyKey, enabled := s.enabled, options := s.options)
  }

  /** No colon in any field, and no bar in the two fields around the bar. */
  ghost predicate Separable(r: Record) {
    && Without(r.platform, ':') && Without(r.externalID, ':') && Without(r.subscriptionType, ':')
    && Without(r.targetType, ':') && Without(r.targetExternalID, ':')
    && Without(r.subscriptionType, '|') && Without(r.targetType, '|')
  }

  lemma ColonsInKey(r: Record)
    ensures Count(DerivedKey(r), ':') == 3 + Count(r.platform, ':') + Count(r.externalID, ':')
      + Count(r.subscriptionType, ':') + Count(r.targetType, ':') + Count(r.targetExternalID, ':')
  {
    hide Count;
    var r4 := ":" + r.targetExternalID;
    var r3 := "|" + (r.targetType + r4);
    var r2 := ":" + (r.subscriptionType + r3);
    var r1 := ":" + (r.externalID + r2);
    CountConcat(r.platform, r1, ':');
    CountConcat(":", r.externalID + r2, ':');
    CountConcat(r.externalID, r2, ':');
    CountConcat(":", r.subscriptionType + r3, ':');
    CountConcat(r.subscriptionType, r3, ':');
    CountConcat("|", r.targetType + r4, ':');
    CountConcat(r.targetType, r4, ':');
    CountConcat(":", r.targetExternalID, ':');
    OneColon();
  }

  lemma OneColon()
    ensures Count(":", ':') == 1
    ensures Count("|", ':') == 0
    ensures Count("|", '|') == 1
  {
    assert ":"[1..] == "" && "|"[1..] == "";
  }

  lemma SeparableKeyIsOwn(r: Record, s: Record)
    requires Separable(r) && DerivedKey(r) == DerivedKey(s)
    ensures SameFields(r, s)
  {
    hide Count, Without;
    ColonsInKey(r);
    ColonsInKey(s);
    EachWithoutIffNone();
    var r4, s4 := r.subscriptionType + ("|" + r.targetType), s.subscriptionType + ("|" + s.targetType);
    var r3, s3 := r4 + (":" + r.targetExternalID), s4 + (":" + s.targetExternalID);
    TailOfKey(r);
    TailOfKey(s);
    SplitAt(r.platform, r.externalID + (":" + r3), s.platform, s.externalID + (":" + s3), ':');
    SplitAt(r.externalID, r3, s.externalID, s3, ':');
    BarIsNoColon(r.subscriptionType, r.targetType);
    BarIsNoColon(s.subscriptionType, s.targetType);
    SplitAt(r4, r.targetExternalID, s4, s.targetExternalID, ':');
    CountBars(r.subscriptionType, r.targetType);
    CountBars(s.subscriptionType, s.targetType);
    WithoutIffNone(r.subscriptionType, '|');
    WithoutIffNone(s.subscriptionType, '|');
    WithoutIffNone(r.targetType, '|');
    SplitAt(r.subscriptionType, r.targetType, s.subscriptionType, s.targetType, '|');
  }

  lemma TailOfKey(r: Record)
    ensures
      var tail := (r.subscriptionType + ("|" + r.targetType)) + (":" + r.targetExternalID);
      DerivedKey(r) == r.platform + (":" + (r.externalID + (":" + tail)))
  {
    ConcatAssociates(r.subscriptionType, "|" + r.targetType, ":" + r.targetExternalID);
    ConcatAssociates("|", r.targetType, ":" + r.targetExternalID);
  }

  lemma BarIsNoColon(a: string, b: string)
    requires Without(a, ':') && Without(b, ':')
    ensures Without(a + ("|" + b), ':')
  {
  }

  lemma CountBars(a: string, b: string)
    ensures Count(a + ("|" + b), '|') == Count(a, '|') + 1 + Count(b, '|')
  {
    hide Count;
    CountConcat(a, "|" + b, '|');
    CountConcat("|", b, '|');
    OneColon();
  }

  /** With a separator inside a field, another record has the same key. */
  lemma Twin(r: Record) returns (s: Record)
    requires !Separable(r)
    ensures DerivedKey(s) == DerivedKey(r)
    ensures !SameFields(r, s)
    ensures s.legacyKey == r.legacyKey
  {
    hide Without;
    var tail := ":" + r.targetExternalID;
    if !Without(r.platform, ':') {
      var a, b := CutFirst(r.platform, ':');
      s := r.(platform := a, externalID := b + (":" + r.externalID));
      Shift(a, ":", b, ":", r.externalID, ":" + (r.subscriptionType + ("|" + (r.targetType + tail))));
    } else if !Without(r.externalID, ':') {
      var a, b := CutFirst(r.externalID, ':');
      s := r.(platform := r.platform + (":" + a), externalID := b);
      Shift(r.platform, ":", a, ":", b, ":" + (r.subscriptionType + ("|" + (r.targetType + tail))));
    } else if !Without(r.subscriptionType, ':') {
      var a, b := CutFirst(r.subscriptionType, ':');
      s := r.(externalID := r.externalID + (":" + a), subscriptionType := b);
      Shift(r.externalID, ":", a, ":", b, "|" + (r.targetType + tail));
    } else if !Without(r.targetType, ':') {
      var a, b := CutFirst(r.targetType, ':');
      s := r.(targetType := a, targetExternalID := b + (":" + r.targetExternalID));
      ConcatAssociates(a, ":" + b, tail);
      ConcatAssociates(":", b, tail);
    } else if !Without(r.targetExternalID, ':') {
      var a, b := CutFirst(r.targetExternalID, ':');
      s := r.(targetType := r.targetType + (":" + a), targetExternalID := b);
      ConcatAssociates(r.targetType, ":" + a, ":" + b);
      ConcatAssociates(":", a, ":" + b);
    } else if !Without(r.subscriptionType, '|') {
      var a, b := CutFirst(r.subscriptionType, '|');
      s := r.(subscriptionType := a, targetType := b + ("|" + r.targetType));
      Shift(a, "|", b, "|", r.targetType, tail);
    } else {
      var a, b := CutFirst(r.targetType, '|');
      s := r.(subscriptionType := r.subscriptionType + ("|" + a), targetType := b);
      Shift(r.subscriptionType, "|", a, "|", b, tail);
    }
  }

  /** No record with other fields shares the derived key. */
  ghost predicate KeyIsOwn(r: Record) {
    forall s: Record | Spaces.Blank(s.legacyKey) && LegacyRecordKey(s) == LegacyRecordKey(r) :: SameFields(r, s)
  }

  /** A derived key is a record's own exactly when no separator stands inside its fields. */
  lemma {:induction false} DerivedKeyIsOwnIff(r: Record)
    requires Spaces.Blank(r.legacyKey)
    ensures KeyIsOwn(r) <==> Separable(r)
  {
    hide DerivedKey, SameFields, Separable;
    if Separable(r) {
      forall s: Record | Spaces.Blank(s.legacyKey) && LegacyRecordKey(s) == LegacyRecordKey(r)
        ensures SameFields(r, s)
      {
        SeparableKeyIsOwn(r, s);
      }
    } else {
      var s := Twin(r);
    }
  }

  // ---- Where the records come from ----

  /** A subscription row as the snapshot reads it: its database key parsed, its types. */
  datatype Row = Row(site: string, id: string, types: string, group: int64, options: string)

  /** The two numbers of a database key, at a site with numeric ids. */
  function ParsedRow(site: string, groupText: string, idText: string, types: string, options: string): Option<Row> {
    match (ParseInt(groupText), ParseInt(idText))
    case (Some(group), Some(id)) => Some(Row(site, FormatInt(id), types, group, options))
    case _ => None
  }

  function StoredKey(row: Row): string {
    row.site + (":" + (row.id + (":" + (row.types + ("|" + ("group" + (":" + FormatInt(row.group))))))))
  }

  /** The stored key has the form of a derived one. */
  function SnapshotRecord(row: Row): (r: Record)
    ensures DerivedKey(r) == r.legacyKey == StoredKey(row)
  {
    Record(row.site, row.id, row.types, "group", FormatInt(row.group), StoredKey(row), true, row.options)
  }

  lemma StoredKeyIsUsed(row: Row)
    ensures LegacyRecordKey(SnapshotRecord(row)) == StoredKey(row)
  {
    var key := StoredKey(row);
    assert key[|row.site|] == ':' && !Spaces.IsSpace(':');
  }

  lemma {:induction false} ZeroBefore(digits: string)
    requires AllDigits(digits)
    ensures AllDigits("0" + digits)
    ensures Magnitude("0" + digits) == Magnitude(digits)
  {
    var s := "0" + digits;
    forall i | 0 <= i < |s| ensures IsDigit(s[i]) { if i > 0 { assert s[i] == digits[i - 1]; } }
    if digits == "" {
      assert s == "0" && s[..0] == "";
    } else {
      var n := |digits| - 1;
      ZeroBefore(digits[..n]);
      assert s[..n + 1] == "0" + digits[..n];
    }
  }

  /** The numbers the bot itself writes are read back as the row they were written for. */
  lemma {:induction false} RowReadsBack(site: string, group: int64, id: int64, types: string, options: string)
    ensures ParsedRow(site, FormatInt(group), FormatInt(id), types, options)
         == Some(Row(site, FormatInt(id), types, group, options))
  {
    hide ParseInt, FormatInt;
    ParseAfterFormat(group);
    ParseAfterFormat(id);
  }

  /** Two database keys that differ by a leading zero are read as one row: this is how a snapshot repeats a key. */
  lemma {:induction false} SnapshotRepeatsRow(site: string, groupText: string, digits: string, types: string,
                                              options: string)
    requires digits != "" && AllDigits(digits)
    ensures ParsedRow(site, groupText, "0" + digits, types, options)
         == ParsedRow(site, groupText, digits, types, options)
  {
    hide Magnitude;
    ZeroBefore(digits);
    assert IsDigit(digits[0]) && IsDigit(("0" + digits)[0]);
  }

  /** A snapshot that repeats a row hides a projection that no record stands behind. */
  lemma {:induction false} DuplicateHidesExtra(row: Row, extra: Projection, canonical: string -> string)
    requires extra.legacyKey != StoredKey(row)
    ensures
      var records := [SnapshotRecord(row), SnapshotRecord(row)];
      var current := [Projection(StoredKey(row), true, row.options), extra];
      && Mirrored(records, current, canonical)
      && extra.legacyKey in MapOf(OfProjections(current, canonical))
      && extra.legacyKey !in MapOf(OfRecords(records, canonical))
  {
    hide StoredKey, MapOf, LegacyRecordKey;
    StoredKeyIsUsed(row);
    var records := [SnapshotRecord(row), SnapshotRecord(row)];
    var current := [Projection(StoredKey(row), true, row.options), extra];
    var r := OfRecord(SnapshotRecord(row), canonical);
    assert OfRecords(records, canonical) == [r, r];
    var have := OfProjections(current, canonical);
    assert have == [r, OfProjection(extra, canonical)];
    MapOfUnique(have);
    MapOfKeys([r, r]);
    assert have[0].key in MapOf(have) && have[1].key in MapOf(have);
    forall key | key in MapOf([r, r]) ensures key == r.key { assert MapOf([r, r])[key] in [r, r]; }
  }

  predicate SameRow(row: Row, other: Row) {
    other == row.(options := other.options)
  }

  /** No other row shares the stored key; ids come out of a database key split at its colons, so they hold none. */
  ghost predicate StoredKeyIsOwn(row: Row) {
    forall other: Row | Without(other.id, ':') && StoredKey(other) == StoredKey(row) :: SameRow(row, other)
  }

  lemma NumberHasNoColon(n: int64)
    ensures Without(FormatInt(n), ':')
  {
    var digits := FormatNat(if n < 0 then 0 - n else n);
    forall i | 0 <= i < |digits| ensures digits[i] != ':' { assert IsDigit(digits[i]); }
  }

  lemma SeparableRowIsOwn(row: Row, other: Row)
    requires Without(row.id, ':') && Without(row.site, ':') && Without(row.types, ':') && Without(other.id, ':')
    requires StoredKey(other) == StoredKey(row)
    ensures SameRow(row, other)
  {
    hide Count, Without, StoredKey, FormatInt, ParseInt;
    var r, s := SnapshotRecord(row), SnapshotRecord(other);
    ColonsInKey(r);
    ColonsInKey(s);
    EachWithoutIffNone();
    NumberHasNoColon(row.group);
    NumberHasNoColon(other.group);
    var r4, s4 := row.types + ("|" + "group"), other.types + ("|" + "group");
    var r3, s3 := r4 + (":" + FormatInt(row.group)), s4 + (":" + FormatInt(other.group));
    TailOfKey(r);
    TailOfKey(s);
    SplitAt(row.site, row.id + (":" + r3), other.site, other.id + (":" + s3), ':');
    SplitAt(row.id, r3, other.id, s3, ':');
    BarIsNoColon(row.types, "group");
    BarIsNoColon(other.types, "group");
    SplitAt(r4, FormatInt(row.group), s4, FormatInt(other.group), ':');
    assert r4[..|row.types|] == row.types && s4[..|other.types|] == other.types;
    ParseAfterFormat(row.group);
    ParseAfterFormat(other.group);
  }

  lemma TwinRow(row: Row) returns (other: Row)
    requires Without(row.id, ':') && !(Without(row.site, ':') && Without(row.types, ':'))
    ensures Without(other.id, ':')
    ensures StoredKey(other) == StoredKey(row)
    ensures !SameRow(row, other)
  {
    hide Without, FormatInt;
    var rest := "|" + ("group" + (":" + FormatInt(row.group)));
    if !Without(row.site, ':') {
      var a, b := CutLast(row.site, ':');
      other := row.(site := a, id := b, types := row.id + (":" + row.types));
    } else {
      var a, b := CutFirst(row.types, ':');
      other := row.(site := row.site + (":" + row.id), id := a, types := b);
    }
  }

  /** A stored key is a row's own exactly when neither its site nor its types hold a colon. */
  lemma {:induction false} StoredKeyIsOwnIff(row: Row)
    requires Without(row.id, ':')
    ensures StoredKeyIsOwn(row) <==> Without(row.site, ':') && Without(row.types, ':')
  {
    hide Without, StoredKey, SameRow;
    if Without(row.site, ':') && Without(row.types, ':') {
      forall other: Row | Without(other.id, ':') && StoredKey(other) == StoredKey(row) ensures SameRow(row, other) {
        SeparableRowIsOwn(row, other);
      }
    } else {
      var other := TwinRow(row);
    }
  }

  /** No field that a stored key is made of holds a colon. */
  ghost predicate PlainRow(row: Row) {
    Without(row.site, ':') && Without(row.id, ':') && Without(row.types, ':')
  }

  ghost predicate DistinctRows(rows: seq<Row>) {
    forall i, j | 0 <= i < j < |rows| :: !SameRow(rows[i], rows[j])
  }

  function SnapshotOf(rows: seq<Row>): (records: seq<Record>)
    ensures |records| == |rows| && forall i | 0 <= i < |rows| :: records[i] == SnapshotRecord(rows[i])
  {
    seq(|rows|, i requires 0 <= i < |rows| => SnapshotRecord(rows[i]))
  }

  lemma PlainKeysDiffer(row: Row, other: Row)
    requires PlainRow(row) && PlainRow(other)
    ensures LegacyRecordKey(SnapshotRecord(row)) == LegacyRecordKey(SnapshotRecord(other)) <==> SameRow(row, other)
  {
    hide Without, LegacyRecordKey, Spaces.Blank;
    StoredKeyIsUsed(row);
    StoredKeyIsUsed(other);
    if StoredKey(row) == StoredKey(other) { SeparableRowIsOwn(row, other); }
  }

  /** A snapshot of rows without colons has unique keys exactly if its rows differ, and is then compared exactly. */
  lemma {:induction false} PlainSnapshotIsExact(rows: seq<Row>, current: seq<Projection>, canonical: string -> string)
    requires forall i | 0 <= i < |rows| :: PlainRow(rows[i])
    ensures
      var wanted, have := OfRecords(SnapshotOf(rows), canonical), OfProjections(current, canonical);
      && (UniqueKeys(wanted) <==> DistinctRows(rows))
      && (DistinctRows(rows) ==>
            (Mirrored(SnapshotOf(rows), current, canonical) <==>
               |rows| == |current| && MapOf(wanted) == MapOf(have)))
  {
    hide PlainRow, SameRow, LegacyRecordKey, LooksCurrent, MapOf;
    var wanted := OfRecords(SnapshotOf(rows), canonical);
    forall i, j | 0 <= i < j < |rows| ensures wanted[i].key == wanted[j].key <==> SameRow(rows[i], rows[j]) {
      PlainKeysDiffer(rows[i], rows[j]);
    }
    if DistinctRows(rows) { UniqueRecordsAreExact(wanted, OfProjections(current, canonical)); }
  }

  /** Two rows of different sites with one stored key. */
  lemma {:induction false} StoredKeysCollide(group: int64, options: string)
    ensures
      var row, other := Row("a", "b", "c:d", group, options), Row("a:b", "c", "d", group, options);
      && LegacyRecordKey(SnapshotRecord(row)) == LegacyRecordKey(SnapshotRecord(other))
      && !SameFields(SnapshotRecord(row), SnapshotRecord(other))
  {
    hide FormatInt, LegacyRecordKey;
    var row, other := Row("a", "b", "c:d", group, options), Row("a:b", "c", "d", group, options);
    StoredKeyIsUsed(row);
    StoredKeyIsUsed(other);
    assert "c:d" == "c" + (":" + "d") && "a:b" == "a" + (":" + "b");
  }
}
