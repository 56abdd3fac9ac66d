/** setStationNamesAndAttributesAdvanced: nine optional index-keyed maps,
    each spread into keys `<letter><index>`, then three optional scalars.
    Indices are the non-negative integer keys of a `Record<number, …>`, so
    `Object.entries` renders each as its decimal string. */
module StationAttributes {
  import opened Wrappers
  import opened Decimal
  import opened Query

  datatype StationAttributesParams = StationAttributesParams(
    s: Option<map<nat, string>>,  // station names
    m: Option<map<nat, int>>,     // master 1 bit fields, per board
    n: Option<map<nat, int>>,     // master 2 bit fields
    i: Option<map<nat, int>>,     // ignore-rain bit fields
    j: Option<map<nat, int>>,     // ignore-sensor-1 bit fields
    k: Option<map<nat, int>>,     // ignore-sensor-2 bit fields
    d: Option<map<nat, int>>,     // disable bit fields
    p: Option<map<nat, int>>,     // special bit fields
    g: Option<map<nat, int>>,     // group ids, per station
    sid: Option<int>,             // special station index
    st: Option<int>,              // special station type
    sd: Option<string>)           // special station data

  /** The number of index-keyed maps. */
  const MapCount := 9

  /** The prefix of the `i`-th map, in the order the maps are spread:
      s, m, n, i, j, k, d, p, g. */
  function Letter(i: nat): char
    requires i < MapCount
  {
    match i
    case 0 => 's'
    case 1 => 'm'
    case 2 => 'n'
    case 3 => 'i'
    case 4 => 'j'
    case 5 => 'k'
    case 6 => 'd'
    case 7 => 'p'
    case _ => 'g'
  }

  /** The position of a prefix in that order, or `MapCount` for a character
      that is no prefix. */
  function LetterIndex(c: char): (i: nat)
    ensures i <= MapCount
    ensures i < MapCount ==> Letter(i) == c
  {
    match c
    case 's' => 0
    case 'm' => 1
    case 'n' => 2
    case 'i' => 3
    case 'j' => 4
    case 'k' => 5
    case 'd' => 6
    case 'p' => 7
    case 'g' => 8
    case _ => MapCount
  }

  /** The nine prefixes are distinct. */
  lemma LetterIndexOfLetter(i: nat)
    requires i < MapCount
    ensures LetterIndex(Letter(i)) == i
  {
  }

  predicate IsLetter(c: char) {
    LetterIndex(c) < MapCount
  }

  /** The named keys that are not index keys. */
  const ScalarKeys: set<string> := {"pw", "sid", "st", "sd"}

  // ----- index keys -----

  /** The key `${letter}${idx}`. */
  function IndexKey(c: char, idx: nat): (key: string)
    ensures |key| >= 2 && key[0] == c && key[1..] == NatToDecimal(idx)
  {
    [c] + NatToDecimal(idx)
  }

  /** A letter followed by the canonical rendering of a number. */
  predicate IsIndexKey(key: string) {
    |key| >= 2 && IsCanonical(key[1..])
  }

  /** The index an index key carries. */
  function KeyIndex(key: string): nat
    requires IsIndexKey(key)
  {
    Value(key[1..])
  }

  lemma IndexKeyParts(c: char, idx: nat)
    ensures IsIndexKey(IndexKey(c, idx)) && KeyIndex(IndexKey(c, idx)) == idx
  {
  }

  /** An index key is rebuilt from its letter and index. */
  lemma IndexKeyRebuilt(key: string)
    requires IsIndexKey(key)
    ensures IndexKey(key[0], KeyIndex(key)) == key
  {
    CanonicalRoundTrip(key[1..]);
    assert key == [key[0]] + key[1..];
  }

  lemma IndexKeyInjective(c: char)
    ensures forall a: nat, b: nat :: IndexKey(c, a) == IndexKey(c, b) ==> a == b
  {
    forall a: nat, b: nat | IndexKey(c, a) == IndexKey(c, b)
      ensures a == b
    {
      IndexKeyParts(c, a);
      IndexKeyParts(c, b);
    }
  }

  /** None of the named keys has the shape of an index key. */
  lemma ScalarKeysAreNotIndexKeys()
    ensures !IsIndexKey("pw") && !IsIndexKey("sid") && !IsIndexKey("st") && !IsIndexKey("sd")
  {
    assert !IsDigit('w') && !IsDigit('i') && !IsDigit('t') && !IsDigit('d');
    assert "pw"[1] == 'w' && "sid"[1] == 'i' && "st"[1] == 't' && "sd"[1] == 'd';
  }

  // ----- the map fields -----

  function NumEntries(m: Option<map<nat, int>>): (r: map<nat, QVal>)
    ensures m.None? ==> r == map[]
    ensures m.Some? ==> r.Keys == m.value.Keys && forall idx :: idx in r ==> r[idx] == Num(m.value[idx])
  {
    if m.None? then map[] else map idx | idx in m.value :: Num(m.value[idx])
  }

  function StrEntries(m: Option<map<nat, string>>): (r: map<nat, QVal>)
    ensures m.None? ==> r == map[]
    ensures m.Some? ==> r.Keys == m.value.Keys && forall idx :: idx in r ==> r[idx] == Str(m.value[idx])
  {
    if m.None? then map[] else map idx | idx in m.value :: Str(m.value[idx])
  }

  /** One `Object.entries(…).forEach` line: the entries of one map, keyed
      `<c><idx>`. */
  function Prefixed(c: char, entries: map<nat, QVal>): QueryMap
  {
    IndexKeyInjective(c);
    map idx | idx in entries :: IndexKey(c, idx) := entries[idx]
  }

  /** The key for `idx` is written exactly when the map has `idx`. */
  lemma PrefixedIndexKey(c: char, entries: map<nat, QVal>, idx: nat)
    ensures IndexKey(c, idx) in Prefixed(c, entries) <==> idx in entries
    ensures idx in entries ==> Prefixed(c, entries)[IndexKey(c, idx)] == entries[idx]
  {
    IndexKeyInjective(c);
  }

  /** Every key written is an index key with prefix `c`. */
  lemma PrefixedKey(c: char, entries: map<nat, QVal>, key: string)
    requires key in Prefixed(c, entries)
    ensures IsIndexKey(key) && key[0] == c && KeyIndex(key) in entries
    ensures Prefixed(c, entries)[key] == entries[KeyIndex(key)]
  {
    IndexKeyInjective(c);
    var idx :| idx in entries && IndexKey(c, idx) == key;
    IndexKeyParts(c, idx);
  }

  /** The map lines from the `from`-th on, in order, applied to `q`. */
  function SpreadFrom(q: QueryMap, tables: seq<map<nat, QVal>>, from: nat): QueryMap
    requires |tables| == MapCount && from <= MapCount
    decreases MapCount - from
  {
    if from == MapCount then q
    else SpreadFrom(q + Prefixed(Letter(from), tables[from]), tables, from + 1)
  }

  /** The entries the map with prefix `c` contributes; an absent map and an
      empty one contribute nothing alike. */
  function Entries(p: StationAttributesParams, c: char): map<nat, QVal>
  {
    match c
    case 's' => StrEntries(p.s)
    case 'm' => NumEntries(p.m)
    case 'n' => NumEntries(p.n)
    case 'i' => NumEntries(p.i)
    case 'j' => NumEntries(p.j)
    case 'k' => NumEntries(p.k)
    case 'd' => NumEntries(p.d)
    case 'p' => NumEntries(p.p)
    case 'g' => NumEntries(p.g)
    case _ => map[]
  }

  /** The nine maps' entries, in spreading order. */
  function Tables(p: StationAttributesParams): (t: seq<map<nat, QVal>>)
    ensures |t| == MapCount
  {
    seq(MapCount, j requires 0 <= j < MapCount => Entries(p, Letter(j)))
  }

  /** The query before the scalars: `pw` and the spread maps. */
  function MapPart(pw: string, p: StationAttributesParams): QueryMap
  {
    SpreadFrom(map["pw" := Str(pw)], Tables(p), 0)
  }

  /** The whole query: `pw`, the nine map fields, then `sid`, `st`, `sd`,
      each scalar when supplied. */
  function StationAttributesQuery(pw: string, p: StationAttributesParams): (q: QueryMap)
  {
    var q := MapPart(pw, p);
    var q := PutIf(q, p.sid.Some?, "sid", Num(p.sid.GetOr(0)));
    var q := PutIf(q, p.st.Some?, "st", Num(p.st.GetOr(0)));
    var q := PutIf(q, p.sd.Some?, "sd", Str(p.sd.GetOr("")));
    q
  }

  // ----- what spreading does -----

  /** An index key of a map still to be spread. */
  predicate Pending(key: string, from: nat) {
    IsIndexKey(key) && from <= LetterIndex(key[0]) < MapCount
  }

  /** A map adds no key whose letter is not its own. */
  lemma NotAddedBy(entries: map<nat, QVal>, j: nat, key: string)
    requires j < MapCount
    requires !(IsIndexKey(key) && LetterIndex(key[0]) == j)
    ensures key !in Prefixed(Letter(j), entries)
  {
    LetterIndexOfLetter(j);
    if key in Prefixed(Letter(j), entries) {
      PrefixedKey(Letter(j), entries, key);
    }
  }

  /** Spreading maps that do not hold `key` leaves `key` as it was. */
  lemma {:induction false} SpreadKeepsAbsent(q: QueryMap, tables: seq<map<nat, QVal>>, from: nat, key: string)
    requires |tables| == MapCount && from <= MapCount
    requires forall j :: from <= j < MapCount ==> key !in Prefixed(Letter(j), tables[j])
    ensures var r := SpreadFrom(q, tables, from);
      (key in r <==> key in q) && (key in q ==> r[key] == q[key])
    decreases MapCount - from
  {
    if from < MapCount {
      SpreadKeepsAbsent(q + Prefixed(Letter(from), tables[from]), tables, from + 1, key);
    }
  }

  /** Keys that are not index keys of a map still to be spread pass
      through. */
  lemma SpreadKeepsOthers(q: QueryMap, tables: seq<map<nat, QVal>>, from: nat, key: string)
    requires |tables| == MapCount && from <= MapCount
    requires !Pending(key, from)
    ensures var r := SpreadFrom(q, tables, from);
      (key in r <==> key in q) && (key in q ==> r[key] == q[key])
  {
    forall j | from <= j < MapCount
      ensures key !in Prefixed(Letter(j), tables[j])
    {
      NotAddedBy(tables[j], j, key);
    }
    SpreadKeepsAbsent(q, tables, from, key);
  }

  /** Spreading from `from` on, when `key` is absent from `q` and from every
      map but the `own`-th: `key` ends up as that map's line wrote it. */
  lemma {:induction false} SpreadOnlyFrom(q: QueryMap, tables: seq<map<nat, QVal>>, from: nat, own: nat, key: string)
    requires |tables| == MapCount && from <= own < MapCount
    requires key !in q
    requires forall j :: from <= j < MapCount && j != own ==> key !in Prefixed(Letter(j), tables[j])
    ensures var r := SpreadFrom(q, tables, from);
      var written := Prefixed(Letter(own), tables[own]);
      (key in r <==> key in written) && (key in r ==> r[key] == written[key])
    decreases MapCount - from
  {
    var q' := q + Prefixed(Letter(from), tables[from]);
    if from == own {
      SpreadKeepsAbsent(q', tables, from + 1, key);
    } else {
      SpreadOnlyFrom(q', tables, from + 1, own, key);
    }
  }

  /** An index key of a map still to be spread is present exactly when
      that map has the index, and then carries that entry. */
  lemma SpreadIndexKey(q: QueryMap, tables: seq<map<nat, QVal>>, from: nat, c: char, idx: nat)
    requires |tables| == MapCount
    requires from <= LetterIndex(c) < MapCount
    requires IndexKey(c, idx) !in q
    ensures var r := SpreadFrom(q, tables, from);
      && (IndexKey(c, idx) in r <==> idx in tables[LetterIndex(c)])
      && (IndexKey(c, idx) in r ==> r[IndexKey(c, idx)] == tables[LetterIndex(c)][idx])
  {
    var key := IndexKey(c, idx);
    var own := LetterIndex(c);
    IndexKeyParts(c, idx);
    forall j | from <= j < MapCount && j != own
      ensures key !in Prefixed(Letter(j), tables[j])
    {
      NotAddedBy(tables[j], j, key);
    }
    SpreadOnlyFrom(q, tables, from, own, key);
    PrefixedIndexKey(c, tables[own], idx);
  }

  // ----- what the whole query holds -----

  /** The scalars leave every index key alone. */
  lemma ScalarsKeepIndexKeys(pw: string, p: StationAttributesParams, key: string)
    requires IsIndexKey(key)
    ensures var q := StationAttributesQuery(pw, p);
      (key in q <==> key in MapPart(pw, p)) && (key in q ==> q[key] == MapPart(pw, p)[key])
  {
    ScalarKeysAreNotIndexKeys();
    assert key != "sid" && key != "st" && key != "sd";
    var q1 := PutIf(MapPart(pw, p), p.sid.Some?, "sid", Num(p.sid.GetOr(0)));
    var q2 := PutIf(q1, p.st.Some?, "st", Num(p.st.GetOr(0)));
    PutIfOther(MapPart(pw, p), p.sid.Some?, "sid", Num(p.sid.GetOr(0)), key);
    PutIfOther(q1, p.st.Some?, "st", Num(p.st.GetOr(0)), key);
    PutIfOther(q2, p.sd.Some?, "sd", Str(p.sd.GetOr("")), key);
  }

  /** For each of the nine maps, key `<letter><idx>` is sent exactly when
      the map is given and has `idx`, and carries that entry. */
  lemma StationAttributesIndexKey(pw: string, p: StationAttributesParams, c: char, idx: nat)
    requires IsLetter(c)
    ensures var q := StationAttributesQuery(pw, p);
      && (IndexKey(c, idx) in q <==> idx in Entries(p, c))
      && (IndexKey(c, idx) in q ==> q[IndexKey(c, idx)] == Entries(p, c)[idx])
  {
    IndexKeyParts(c, idx);
    ScalarKeysAreNotIndexKeys();
    assert IndexKey(c, idx) != "pw";
    SpreadIndexKey(map["pw" := Str(pw)], Tables(p), 0, c, idx);
    ScalarsKeepIndexKeys(pw, p, IndexKey(c, idx));
  }

  /** `pw` always; `sid`, `st`, `sd` exactly when supplied, unchanged. */
  lemma StationAttributesScalars(pw: string, p: StationAttributesParams)
    ensures var q := StationAttributesQuery(pw, p);
      && "pw" in q && q["pw"] == Str(pw)
      && ("sid" in q <==> p.sid.Some?) && ("sid" in q ==> q["sid"] == Num(p.sid.value))
      && ("st" in q <==> p.st.Some?) && ("st" in q ==> q["st"] == Num(p.st.value))
      && ("sd" in q <==> p.sd.Some?) && ("sd" in q ==> q["sd"] == Str(p.sd.value))
  {
    ScalarKeysAreNotIndexKeys();
    var q0 := map["pw" := Str(pw)];
    assert "sid" !in q0 && "st" !in q0 && "sd" !in q0;
    SpreadKeepsOthers(q0, Tables(p), 0, "pw");
    SpreadKeepsOthers(q0, Tables(p), 0, "sid");
    SpreadKeepsOthers(q0, Tables(p), 0, "st");
    SpreadKeepsOthers(q0, Tables(p), 0, "sd");
  }

  /** No key outside `pw`, `sid`, `st`, `sd` and the index keys of entries
      actually given: nothing else of the letter-and-digits shape appears. */
  lemma StationAttributesKeys(pw: string, p: StationAttributesParams, key: string)
    requires key in StationAttributesQuery(pw, p)
    ensures key in ScalarKeys || (IsIndexKey(key) && IsLetter(key[0]) && KeyIndex(key) in Entries(p, key[0]))
  {
    if key !in ScalarKeys {
      var q0 := map["pw" := Str(pw)];
      if !(IsIndexKey(key) && IsLetter(key[0])) {
        SpreadKeepsOthers(q0, Tables(p), 0, key);
      } else {
        IndexKeyRebuilt(key);
        StationAttributesIndexKey(pw, p, key[0], KeyIndex(key));
      }
    }
  }

  // ----- the size of the query -----

  /** How many entries an optional map holds. */
  function MapSize<T>(m: Option<map<nat, T>>): nat
  {
    if m.None? then 0 else |m.value|
  }

  /** One when the optional scalar is supplied. */
  function Supplied<T>(o: Option<T>): nat
  {
    if o.Some? then 1 else 0
  }

  /** The number of entries the maps from the `from`-th on hold together. */
  function EntryCount(tables: seq<map<nat, QVal>>, from: nat): nat
    requires |tables| == MapCount && from <= MapCount
    decreases MapCount - from
  {
    if from == MapCount then 0 else |tables[from]| + EntryCount(tables, from + 1)
  }

  /** Distinct indices give distinct keys. */
  lemma {:induction false} IndexKeyImageSize(c: char, indices: set<nat>)
    ensures |set idx | idx in indices :: IndexKey(c, idx)| == |indices|
    decreases |indices|
  {
    if indices != {} {
      var idx :| idx in indices;
      var rest := indices - {idx};
      IndexKeyImageSize(c, rest);
      var image := set i | i in indices :: IndexKey(c, i);
      var image' := set i | i in rest :: IndexKey(c, i);
      assert image == image' + {IndexKey(c, idx)} by {
        forall key | key in image
          ensures key in image' + {IndexKey(c, idx)}
        {
          var i :| i in indices && IndexKey(c, i) == key;
          if i != idx {
            assert i in rest;
          }
        }
        forall key | key in image' + {IndexKey(c, idx)}
          ensures key in image
        {
          if key != IndexKey(c, idx) {
            var i :| i in rest && IndexKey(c, i) == key;
            assert i in indices;
          }
        }
      }
      assert IndexKey(c, idx) !in image' by {
        IndexKeyInjective(c);
      }
    }
  }

  lemma PrefixedKeySet(c: char, entries: map<nat, QVal>)
    ensures Prefixed(c, entries).Keys == set idx | idx in entries :: IndexKey(c, idx)
  {
    var image := set idx | idx in entries :: IndexKey(c, idx);
    forall key | key in Prefixed(c, entries)
      ensures key in image
    {
      PrefixedKey(c, entries, key);
      IndexKeyRebuilt(key);
    }
    forall key | key in image
      ensures key in Prefixed(c, entries)
    {
      var i :| i in entries && IndexKey(c, i) == key;
      PrefixedIndexKey(c, entries, i);
    }
  }

  /** No entry of a map is lost to another with the same key. */
  lemma PrefixedSize(c: char, entries: map<nat, QVal>)
    ensures |Prefixed(c, entries)| == |entries|
  {
    PrefixedKeySet(c, entries);
    IndexKeyImageSize(c, entries.Keys);
  }

  /** No two spread entries share a key, and none lands on a key of `q`. */
  lemma {:induction false} SpreadSize(q: QueryMap, tables: seq<map<nat, QVal>>, from: nat)
    requires |tables| == MapCount && from <= MapCount
    requires forall key :: key in q ==> !Pending(key, from)
    ensures |SpreadFrom(q, tables, from)| == |q| + EntryCount(tables, from)
    decreases MapCount - from
  {
    if from < MapCount {
      var c := Letter(from);
      var added := Prefixed(c, tables[from]);
      SpreadStep(q, tables, from);
      PrefixedSize(c, tables[from]);
      SpreadSize(q + added, tables, from + 1);
    }
  }

  /** One spread step adds its map's entries to the count, and leaves a
      query the remaining maps can be spread over. */
  lemma SpreadStep(q: QueryMap, tables: seq<map<nat, QVal>>, from: nat)
    requires |tables| == MapCount && from < MapCount
    requires forall key :: key in q ==> !Pending(key, from)
    ensures var added := Prefixed(Letter(from), tables[from]);
      && |q + added| == |q| + |added|
      && forall key :: key in q + added ==> !Pending(key, from + 1)
  {
    var c := Letter(from);
    var added := Prefixed(c, tables[from]);
    LetterIndexOfLetter(from);
    forall key | key in added
      ensures key !in q && IsIndexKey(key) && key[0] == c
    {
      PrefixedKey(c, tables[from], key);
    }
    DisjointUnionSize(q, added);
  }

  lemma DisjointUnionSize(a: QueryMap, b: QueryMap)
    requires forall key :: key in b ==> key !in a
    ensures |a + b| == |a| + |b|
  {
    assert (a + b).Keys == a.Keys + b.Keys;
    assert a.Keys * b.Keys == {};
  }

  lemma EntryCountOfLetters(p: StationAttributesParams)
    ensures EntryCount(Tables(p), 0) ==
      MapSize(p.s) + MapSize(p.m) + MapSize(p.n) + MapSize(p.i) + MapSize(p.j)
      + MapSize(p.k) + MapSize(p.d) + MapSize(p.p) + MapSize(p.g)
  {
    NamesAndMastersCount(p);
    IgnoreFieldsCount(p);
    OtherFieldsCount(p);
  }

  lemma NamesAndMastersCount(p: StationAttributesParams)
    ensures EntryCount(Tables(p), 0) == MapSize(p.s) + MapSize(p.m) + MapSize(p.n) + EntryCount(Tables(p), 3)
  {
    var t := Tables(p);
    assert t[0] == StrEntries(p.s) && t[1] == NumEntries(p.m) && t[2] == NumEntries(p.n);
    NumEntriesSize(p.m);
    NumEntriesSize(p.n);
    assert |StrEntries(p.s)| == MapSize(p.s) by {
      if p.s.Some? {
        assert StrEntries(p.s).Keys == p.s.value.Keys;
      }
    }
  }

  lemma IgnoreFieldsCount(p: StationAttributesParams)
    ensures EntryCount(Tables(p), 3) == MapSize(p.i) + MapSize(p.j) + MapSize(p.k) + EntryCount(Tables(p), 6)
  {
    var t := Tables(p);
    assert t[3] == NumEntries(p.i) && t[4] == NumEntries(p.j) && t[5] == NumEntries(p.k);
    NumEntriesSize(p.i);
    NumEntriesSize(p.j);
    NumEntriesSize(p.k);
  }

  lemma OtherFieldsCount(p: StationAttributesParams)
    ensures EntryCount(Tables(p), 6) == MapSize(p.d) + MapSize(p.p) + MapSize(p.g)
  {
    var t := Tables(p);
    assert t[6] == NumEntries(p.d) && t[7] == NumEntries(p.p) && t[8] == NumEntries(p.g);
    NumEntriesSize(p.d);
    NumEntriesSize(p.p);
    NumEntriesSize(p.g);
  }

  lemma NumEntriesSize(m: Option<map<nat, int>>)
    ensures |NumEntries(m)| == MapSize(m)
  {
    if m.Some? {
      assert NumEntries(m).Keys == m.value.Keys;
    }
  }

  lemma MapPartSize(pw: string, p: StationAttributesParams)
    ensures |MapPart(pw, p)| == 1 + EntryCount(Tables(p), 0)
  {
    var q0 := map["pw" := Str(pw)];
    ScalarKeysAreNotIndexKeys();
    assert q0.Keys == {"pw"};
    assert forall key :: key in q0 ==> !Pending(key, 0);
    SpreadSize(q0, Tables(p), 0);
  }

  /** Each supplied scalar adds one key. */
  lemma ScalarsSize(pw: string, p: StationAttributesParams)
    ensures |StationAttributesQuery(pw, p)| == |MapPart(pw, p)| + Supplied(p.sid) + Supplied(p.st) + Supplied(p.sd)
  {
    var q0 := map["pw" := Str(pw)];
    ScalarKeysAreNotIndexKeys();
    assert "sid" !in q0 && "st" !in q0 && "sd" !in q0;
    SpreadKeepsOthers(q0, Tables(p), 0, "sid");
    SpreadKeepsOthers(q0, Tables(p), 0, "st");
    SpreadKeepsOthers(q0, Tables(p), 0, "sd");
    var q := MapPart(pw, p);
    var q1 := PutIf(q, p.sid.Some?, "sid", Num(p.sid.GetOr(0)));
    var q2 := PutIf(q1, p.st.Some?, "st", Num(p.st.GetOr(0)));
    PutIfNew(q, p.sid.Some?, "sid", Num(p.sid.GetOr(0)));
    PutIfOther(q, p.sid.Some?, "sid", Num(p.sid.GetOr(0)), "st");
    PutIfOther(q, p.sid.Some?, "sid", Num(p.sid.GetOr(0)), "sd");
    PutIfNew(q1, p.st.Some?, "st", Num(p.st.GetOr(0)));
    PutIfOther(q1, p.st.Some?, "st", Num(p.st.GetOr(0)), "sd");
    PutIfNew(q2, p.sd.Some?, "sd", Str(p.sd.GetOr("")));
  }

  /** The query holds `pw`, one key per map entry and one per supplied
      scalar: nothing overwrites anything. */
  lemma StationAttributesSize(pw: string, p: StationAttributesParams)
    ensures |StationAttributesQuery(pw, p)| ==
      1 + MapSize(p.s) + MapSize(p.m) + MapSize(p.n) + MapSize(p.i) + MapSize(p.j)
      + MapSize(p.k) + MapSize(p.d) + MapSize(p.p) + MapSize(p.g)
      + Supplied(p.sid) + Supplied(p.st) + Supplied(p.sd)
  {
    MapPartSize(pw, p);
    ScalarsSize(pw, p);
    EntryCountOfLetters(p);
  }

  // ----- reading the query back -----

  /** The entries sent under keys `<c><idx>`, by index. */
  function ReadIndexed(q: QueryMap, c: char): (r: map<nat, QVal>)
    ensures forall key :: key in q && IsIndexKey(key) && key[0] == c ==> KeyIndex(key) in r
  {
    ReadIndexKeysInjective(c);
    map key | key in q && IsIndexKey(key) && key[0] == c :: KeyIndex(key) := q[key]
  }

  lemma ReadIndexKeysInjective(c: char)
    ensures forall k1, k2 ::
      IsIndexKey(k1) && k1[0] == c && IsIndexKey(k2) && k2[0] == c && KeyIndex(k1) == KeyIndex(k2) ==> k1 == k2
  {
    forall k1, k2 | IsIndexKey(k1) && k1[0] == c && IsIndexKey(k2) && k2[0] == c && KeyIndex(k1) == KeyIndex(k2)
      ensures k1 == k2
    {
      IndexKeyRebuilt(k1);
      IndexKeyRebuilt(k2);
    }
  }

  /** Index `idx` is read exactly when key `<c><idx>` was sent, with its
      value. */
  lemma ReadIndexedKey(q: QueryMap, c: char, idx: nat)
    ensures idx in ReadIndexed(q, c) <==> IndexKey(c, idx) in q
    ensures idx in ReadIndexed(q, c) ==> ReadIndexed(q, c)[idx] == q[IndexKey(c, idx)]
  {
    ReadIndexKeysInjective(c);
    IndexKeyParts(c, idx);
    if idx in ReadIndexed(q, c) {
      var key :| key in q && IsIndexKey(key) && key[0] == c && KeyIndex(key) == idx;
      IndexKeyRebuilt(key);
    }
  }

  /** The map with prefix `c` is read back from the query exactly. */
  lemma ReadIndexedQuery(pw: string, p: StationAttributesParams, c: char)
    requires IsLetter(c)
    ensures ReadIndexed(StationAttributesQuery(pw, p), c) == Entries(p, c)
  {
    var q := StationAttributesQuery(pw, p);
    var r := ReadIndexed(q, c);
    forall idx: nat
      ensures (idx in r <==> idx in Entries(p, c)) && (idx in r ==> r[idx] == Entries(p, c)[idx])
    {
      ReadIndexedKey(q, c, idx);
      StationAttributesIndexKey(pw, p, c, idx);
    }
    assert r.Keys == Entries(p, c).Keys;
  }

  /** The names, if every entry read is a string. */
  function Strs(e: map<nat, QVal>): (r: Option<map<nat, string>>)
    ensures r.Some? <==> forall idx :: idx in e ==> e[idx].Str?
    ensures r.Some? ==> StrEntries(r) == e
  {
    if forall idx :: idx in e ==> e[idx].Str? then
      var m := map idx | idx in e :: e[idx].s;
      assert StrEntries(Some(m)) == e;
      Some(m)
    else None
  }

  /** The bit fields or group ids, if every entry read is a number. */
  function Nums(e: map<nat, QVal>): (r: Option<map<nat, int>>)
    ensures r.Some? <==> forall idx :: idx in e ==> e[idx].Num?
    ensures r.Some? ==> NumEntries(r) == e
  {
    if forall idx :: idx in e ==> e[idx].Num? then
      var m := map idx | idx in e :: e[idx].n;
      assert NumEntries(Some(m)) == e;
      Some(m)
    else None
  }

  /** A map field is read back as given, an absent one as empty. */
  lemma StrsRoundTrip(m: Option<map<nat, string>>)
    ensures Strs(StrEntries(m)) == Some(m.GetOr(map[]))
  {
    var e := StrEntries(m);
    var r := Strs(e);
    assert r.Some?;
    assert r.value == m.GetOr(map[]) by {
      assert r.value.Keys == e.Keys;
    }
  }

  lemma NumsRoundTrip(m: Option<map<nat, int>>)
    ensures Nums(NumEntries(m)) == Some(m.GetOr(map[]))
  {
    var e := NumEntries(m);
    var r := Nums(e);
    assert r.Some?;
    assert r.value == m.GetOr(map[]) by {
      assert r.value.Keys == e.Keys;
    }
  }

  /** The call's parameters as the query carries them: every map field as
      a map, empty when it was left out. */
  function CanonicalStationAttributes(p: StationAttributesParams): (c: StationAttributesParams)
    ensures c.s.Some? && c.m.Some? && c.n.Some? && c.i.Some? && c.j.Some?
    ensures c.k.Some? && c.d.Some? && c.p.Some? && c.g.Some?
    ensures c.sid == p.sid && c.st == p.st && c.sd == p.sd
  {
    p.(s := Some(p.s.GetOr(map[])), m := Some(p.m.GetOr(map[])), n := Some(p.n.GetOr(map[])),
       i := Some(p.i.GetOr(map[])), j := Some(p.j.GetOr(map[])), k := Some(p.k.GetOr(map[])),
       d := Some(p.d.GetOr(map[])), p := Some(p.p.GetOr(map[])), g := Some(p.g.GetOr(map[])))
  }

  /** Recovers the password and parameters from a station-attributes
      query. */
  function ReadStationAttributes(q: QueryMap): Option<(string, StationAttributesParams)>
  {
    match ReadStr(q, "pw")
    case None => None
    case Some(pw) =>
      var s := Strs(ReadIndexed(q, 's'));
      var m := Nums(ReadIndexed(q, 'm'));
      var n := Nums(ReadIndexed(q, 'n'));
      var i := Nums(ReadIndexed(q, 'i'));
      var j := Nums(ReadIndexed(q, 'j'));
      var k := Nums(ReadIndexed(q, 'k'));
      var d := Nums(ReadIndexed(q, 'd'));
      var sp := Nums(ReadIndexed(q, 'p'));
      var g := Nums(ReadIndexed(q, 'g'));
      if s.None? || m.None? || n.None? || i.None? || j.None? || k.None? || d.None? || sp.None? || g.None?
      then None
      else Some((pw, StationAttributesParams(s, m, n, i, j, k, d, sp, g,
                                             ReadNum(q, "sid"), ReadNum(q, "st"), ReadStr(q, "sd"))))
  }

  /** What a query must hold to be read as `pw` and the canonical form of
      `p`. */
  predicate ReadsAs(q: QueryMap, pw: string, p: StationAttributesParams)
  {
    && ReadStr(q, "pw") == Some(pw)
    && Strs(ReadIndexed(q, 's')) == Some(p.s.GetOr(map[]))
    && Nums(ReadIndexed(q, 'm')) == Some(p.m.GetOr(map[]))
    && Nums(ReadIndexed(q, 'n')) == Some(p.n.GetOr(map[]))
    && Nums(ReadIndexed(q, 'i')) == Some(p.i.GetOr(map[]))
    && Nums(ReadIndexed(q, 'j')) == Some(p.j.GetOr(map[]))
    && Nums(ReadIndexed(q, 'k')) == Some(p.k.GetOr(map[]))
    && Nums(ReadIndexed(q, 'd')) == Some(p.d.GetOr(map[]))
    && Nums(ReadIndexed(q, 'p')) == Some(p.p.GetOr(map[]))
    && Nums(ReadIndexed(q, 'g')) == Some(p.g.GetOr(map[]))
    && ReadNum(q, "sid") == p.sid && ReadNum(q, "st") == p.st && ReadStr(q, "sd") == p.sd
  }

  lemma ReadsAsCanonical(q: QueryMap, pw: string, p: StationAttributesParams)
    requires ReadsAs(q, pw, p)
    ensures ReadStationAttributes(q) == Some((pw, CanonicalStationAttributes(p)))
  {
  }

  /** The entries the prefixes `s`, `m` and `n` stand for. */
  lemma NamesAndMastersEntries(p: StationAttributesParams)
    ensures Entries(p, 's') == StrEntries(p.s)
    ensures Entries(p, 'm') == NumEntries(p.m) && Entries(p, 'n') == NumEntries(p.n)
  {
    assert LetterIndex('s') == 0 && LetterIndex('m') == 1 && LetterIndex('n') == 2;
  }

  /** The entries the prefixes `i`, `j` and `k` stand for. */
  lemma IgnoreFieldsEntries(p: StationAttributesParams)
    ensures Entries(p, 'i') == NumEntries(p.i) && Entries(p, 'j') == NumEntries(p.j)
    ensures Entries(p, 'k') == NumEntries(p.k)
  {
    assert LetterIndex('i') == 3 && LetterIndex('j') == 4 && LetterIndex('k') == 5;
  }

  /** The entries the prefixes `d`, `p` and `g` stand for. */
  lemma OtherFieldsEntries(p: StationAttributesParams)
    ensures Entries(p, 'd') == NumEntries(p.d) && Entries(p, 'p') == NumEntries(p.p)
    ensures Entries(p, 'g') == NumEntries(p.g)
  {
    assert LetterIndex('d') == 6 && LetterIndex('p') == 7 && LetterIndex('g') == 8;
  }

  /** A query holding exactly the entries of `p`'s maps: the names and the
      master bit fields are read back. */
  lemma NamesAndMastersRead(q: QueryMap, p: StationAttributesParams)
    requires ReadIndexed(q, 's') == StrEntries(p.s)
    requires ReadIndexed(q, 'm') == NumEntries(p.m) && ReadIndexed(q, 'n') == NumEntries(p.n)
    ensures Strs(ReadIndexed(q, 's')) == Some(p.s.GetOr(map[]))
    ensures Nums(ReadIndexed(q, 'm')) == Some(p.m.GetOr(map[]))
    ensures Nums(ReadIndexed(q, 'n')) == Some(p.n.GetOr(map[]))
  {
    StrsRoundTrip(p.s);
    NumsRoundTrip(p.m);
    NumsRoundTrip(p.n);
  }

  /** The same for the ignore-rain and ignore-sensor bit fields. */
  lemma IgnoreFieldsRead(q: QueryMap, p: StationAttributesParams)
    requires ReadIndexed(q, 'i') == NumEntries(p.i) && ReadIndexed(q, 'j') == NumEntries(p.j)
    requires ReadIndexed(q, 'k') == NumEntries(p.k)
    ensures Nums(ReadIndexed(q, 'i')) == Some(p.i.GetOr(map[]))
    ensures Nums(ReadIndexed(q, 'j')) == Some(p.j.GetOr(map[]))
    ensures Nums(ReadIndexed(q, 'k')) == Some(p.k.GetOr(map[]))
  {
    NumsRoundTrip(p.i);
    NumsRoundTrip(p.j);
    NumsRoundTrip(p.k);
  }

  /** The same for the disable and special bit fields and the groups. */
  lemma OtherFieldsRead(q: QueryMap, p: StationAttributesParams)
    requires ReadIndexed(q, 'd') == NumEntries(p.d) && ReadIndexed(q, 'p') == NumEntries(p.p)
    requires ReadIndexed(q, 'g') == NumEntries(p.g)
    ensures Nums(ReadIndexed(q, 'd')) == Some(p.d.GetOr(map[]))
    ensures Nums(ReadIndexed(q, 'p')) == Some(p.p.GetOr(map[]))
    ensures Nums(ReadIndexed(q, 'g')) == Some(p.g.GetOr(map[]))
  {
    NumsRoundTrip(p.d);
    NumsRoundTrip(p.p);
    NumsRoundTrip(p.g);
  }

  /** Reading the query gives back the password and the canonical
      parameters. */
  lemma StationAttributesReadBack(pw: string, p: StationAttributesParams)
    ensures ReadStationAttributes(StationAttributesQuery(pw, p)) == Some((pw, CanonicalStationAttributes(p)))
  {
    var q := StationAttributesQuery(pw, p);
    StationAttributesScalars(pw, p);
    ReadIndexedQuery(pw, p, 's');
    ReadIndexedQuery(pw, p, 'm');
    ReadIndexedQuery(pw, p, 'n');
    ReadIndexedQuery(pw, p, 'i');
    ReadIndexedQuery(pw, p, 'j');
    ReadIndexedQuery(pw, p, 'k');
    ReadIndexedQuery(pw, p, 'd');
    ReadIndexedQuery(pw, p, 'p');
    ReadIndexedQuery(pw, p, 'g');
    NamesAndMastersEntries(p);
    IgnoreFieldsEntries(p);
    OtherFieldsEntries(p);
    NamesAndMastersRead(q, p);
    IgnoreFieldsRead(q, p);
    OtherFieldsRead(q, p);
    ReadsAsCanonical(q, pw, p);
  }

  /** Leaving a map out and passing it empty send the same query. */
  lemma CanonicalSendsSame(pw: string, p: StationAttributesParams)
    ensures StationAttributesQuery(pw, CanonicalStationAttributes(p)) == StationAttributesQuery(pw, p)
  {
    TablesOfCanonical(p);
  }

  lemma TablesOfCanonical(p: StationAttributesParams)
    ensures Tables(CanonicalStationAttributes(p)) == Tables(p)
  {
    var c := CanonicalStationAttributes(p);
    forall j | 0 <= j < MapCount
      ensures Tables(c)[j] == Tables(p)[j]
    {
      EntriesOfCanonical(p, Letter(j));
    }
  }

  lemma EntriesOfCanonical(p: StationAttributesParams, x: char)
    ensures Entries(CanonicalStationAttributes(p), x) == Entries(p, x)
  {
    var c := CanonicalStationAttributes(p);
    match x
    case 's' => assert StrEntries(c.s) == StrEntries(p.s);
    case 'm' => NumEntriesOfCanonical(p.m);
    case 'n' => NumEntriesOfCanonical(p.n);
    case 'i' => NumEntriesOfCanonical(p.i);
    case 'j' => NumEntriesOfCanonical(p.j);
    case 'k' => NumEntriesOfCanonical(p.k);
    case 'd' => NumEntriesOfCanonical(p.d);
    case 'p' => NumEntriesOfCanonical(p.p);
    case 'g' => NumEntriesOfCanonical(p.g);
    case _ =>
  }

  lemma NumEntriesOfCanonical(m: Option<map<nat, int>>)
    ensures NumEntries(Some(m.GetOr(map[]))) == NumEntries(m)
  {
  }

  /** Two calls send the same query exactly when they agree on the password
      and on every parameter, up to leaving a map out versus passing it
      empty. */
  lemma SameStationAttributesQuery(pw1: string, p1: StationAttributesParams, pw2: string, p2: StationAttributesParams)
    ensures StationAttributesQuery(pw1, p1) == StationAttributesQuery(pw2, p2) <==>
      pw1 == pw2 && CanonicalStationAttributes(p1) == CanonicalStationAttributes(p2)
  {
    StationAttributesReadBack(pw1, p1);
    StationAttributesReadBack(pw2, p2);
    if pw1 == pw2 && CanonicalStationAttributes(p1) == CanonicalStationAttributes(p2) {
      CanonicalSendsSame(pw1, p1);
      CanonicalSendsSame(pw2, p2);
    }
  }
}
