/** What the scanner finds in an image the builder made. */
module DexRoundTrip {
  import opened Bytes
  import opened Leb128
  import opened Results
  import opened Dex
  import opened DexBuilder
  import F = DexFile

  /** A string as the scanner reads it back. */
  function UpToNul(t: Text): Text {
    var end := FindNul(t, 0);
    if end.None? then t else t[..end.value]
  }

  predicate NulFree(t: Text) { 0 !in t }

  lemma UpToNulIsSame(t: Text)
    ensures UpToNul(t) == t <==> NulFree(t)
    ensures NulFree(UpToNul(t))
  {
  }

  // ------------------------------------------------------- reading pieces

  lemma WordSplits(n: nat)
    requires n < U32_LIMIT
    ensures n == n % 256 + 0x100 * (n / 256 % 256) + 0x1_0000 * (n / 0x1_0000 % 256) + 0x100_0000 * (n / 0x100_0000 % 256)
  {
    assert n / 0x1_0000 == n / 256 / 256;
    assert n / 0x100_0000 == n / 256 / 256 / 256;
  }

  lemma HeldAt(data: Text, off: nat, piece: Text, i: nat)
    requires Holds(data, off, piece) && i < |piece|
    ensures data[off + i] == piece[i]
  {
    assert data[off..off + |piece|][i] == piece[i];
  }

  lemma WordRead(data: Text, off: nat, n: nat)
    requires Holds(data, off, U32(n)) && n < U32_LIMIT
    ensures ReadU32(data, off) == Ok(n)
  {
    WordSplits(n);
    HeldAt(data, off, U32(n), 0);
    HeldAt(data, off, U32(n), 1);
    HeldAt(data, off, U32(n), 2);
    HeldAt(data, off, U32(n), 3);
  }

  lemma HalfRead(data: Text, off: nat, n: nat)
    requires Holds(data, off, U16(n)) && n < 0x1_0000
    ensures ReadU16(data, off) == Ok(n)
  {
    HeldAt(data, off, U16(n), 0);
    HeldAt(data, off, U16(n), 1);
  }

  lemma {:induction false} WordsRead(data: Text, off: nat, ns: seq<nat>, n: nat, i: nat)
    requires i < n <= |ns| && ns[i] < U32_LIMIT && Holds(data, off, Words(ns, n))
    ensures ReadU32(data, off + 4 * i) == Ok(ns[i])
  {
    HoldsParts(data, off, Words(ns, n - 1), U32(ns[n - 1]));
    if i == n - 1 { WordRead(data, off + 4 * i, ns[i]); } else { WordsRead(data, off, ns, n - 1, i); }
  }

  lemma {:induction false} StringHeld(data: Text, off: nat, strings: seq<Text>, n: nat, i: nat)
    requires i < n <= |strings| && Holds(data, off, StringData(strings, n))
    ensures Holds(data, off + |StringData(strings, i)|, StringItem(strings[i]))
  {
    HoldsParts(data, off, StringData(strings, n - 1), StringItem(strings[n - 1]));
    if i < n - 1 { StringHeld(data, off, strings, n - 1, i); }
  }

  lemma {:induction false} MethodHeld(data: Text, off: nat, owner: nat, names: seq<nat>, n: nat, i: nat)
    requires i < n <= |names| && Holds(data, off, MethodRecords(owner, names, n))
    ensures Holds(data, off + 8 * i, MethodRecord(owner, names[i]))
  {
    HoldsParts(data, off, MethodRecords(owner, names, n - 1), MethodRecord(owner, names[n - 1]));
    if i < n - 1 { MethodHeld(data, off, owner, names, n - 1, i); }
  }

  lemma {:induction false} StringStartAt(strings: seq<Text>, start: nat, n: nat, i: nat)
    requires i < n <= |strings|
    ensures StringStarts(strings, start, n)[i] == start + |StringData(strings, i)|
  {
    if i < n - 1 { StringStartAt(strings, start, n - 1, i); }
  }

  lemma {:induction false} StringDataGrows(strings: seq<Text>, n: nat, i: nat)
    requires i < n <= |strings|
    ensures |StringData(strings, i)| + |strings[i]| < |StringData(strings, n)|
  {
    if i < n - 1 { StringDataGrows(strings, n - 1, i); }
  }

  // ------------------------------------------------- where the parts stand

  /** What the plan of a class and its method names guarantees. */
  ghost predicate Sane(p: Plan, descriptor: Text, names: seq<Text>) {
    && |p.typeIdx| == |p.types| <= 3
    && (forall i :: 0 <= i < |p.types| ==> p.typeIdx[i] < |p.strings| && p.strings[p.typeIdx[i]] == p.types[i])
    && p.owner < |p.types| && p.types[p.owner] == descriptor
    && p.objectType < |p.types| && p.stringType < |p.types| && p.shorty < |p.strings|
    && (forall k :: 0 <= k < |p.methods| ==> p.methods[k] < |p.strings| && p.strings[p.methods[k]] in names)
    && (forall n :: n in names ==> exists k :: 0 <= k < |p.methods| && p.methods[k] < |p.strings| && p.strings[p.methods[k]] == n)
  }

  lemma {:induction false} InsertNatElements(sorted: seq<nat>, n: nat)
    ensures forall x :: x in InsertNat(sorted, n) <==> x == n || x in sorted
  {
    if sorted != [] && n > sorted[0] {
      InsertNatElements(sorted[1..], n);
      assert sorted == [sorted[0]] + sorted[1..];
    }
  }

  lemma {:induction false} SortNatsElements(ns: seq<nat>)
    ensures forall x :: x in SortNats(ns) <==> x in ns
  {
    if ns != [] {
      SortNatsElements(ns[1..]);
      InsertNatElements(SortNats(ns[1..]), ns[0]);
      assert ns == [ns[0]] + ns[1..];
    }
  }

  lemma {:induction false} ElementsCount(s: seq<Text>)
    requires StrictlySorted(s)
    ensures |Elements(s)| == |s|
  {
    if s != [] {
      SortedDistinct(s);
      TailElements(s);
      ElementsCount(s[1..]);
      assert s[0] in Elements(s);
    }
  }

  lemma ThreeTypes(descriptor: Text, types: seq<Text>)
    requires StrictlySorted(types) && Elements(types) == {StringType(), descriptor, ObjectType()}
    ensures |types| <= 3
  {
    ElementsCount(types);
  }

  lemma PlanIsSane(descriptor: Text, names: seq<Text>)
    ensures Sane(PlanOf(descriptor, names), descriptor, names)
  {
    var strings := SortedSeq({descriptor, StringType(), ObjectType(), Shorty()} + Elements(names));
    var types := SortedSeq({StringType(), descriptor, ObjectType()});
    SortedTablesCover(descriptor, names, strings, types);
    ThreeTypes(descriptor, types);
    var p := PlanOf(descriptor, names);
    var ns := NameIndices(strings, names);
    SortNatsElements(ns);
    forall k | 0 <= k < |p.methods| ensures p.methods[k] < |p.strings| && p.strings[p.methods[k]] in names {
      assert p.methods[k] in ns;
    }
    forall n | n in names
      ensures exists k :: 0 <= k < |p.methods| && p.methods[k] < |p.strings| && p.strings[p.methods[k]] == n
    {
      var i :| 0 <= i < |names| && names[i] == n;
      assert ns[i] in p.methods;
    }
  }

  /** The sections of an image stand where its header says. */
  ghost predicate LaidOut(data: Text, p: Plan) {
    && LooksLikeDex(data)
    && Holds(data, 0x20, AllWords(HeaderWords(p)))
    && Holds(data, HEADER_SIZE, AllWords(StringOffsets(p)))
    && Holds(data, TypeIdsOff(p), AllWords(p.typeIdx))
    && Holds(data, ProtoIdsOff(p), AllWords(ProtoWords(p)))
    && Holds(data, MethodIdsOff(p), MethodRecords(p.owner, p.methods, |p.methods|))
    && Holds(data, ClassDefsOff(p), AllWords(ClassDef(p)))
    && Holds(data, DataOff(p), Strings(p))
    && Holds(data, TypeListOff(p), TypeList(p.stringType))
    && Holds(data, ClassDataOff(p), ClassData(|p.methods|))
    && Holds(data, MapOff(p), U32(10))
    && Holds(data, MapOff(p) + 4, MapRecords(SortByOffset(MapItems(p)), 10))
  }

  lemma IdsLaidOut(data: Text, p: Plan)
    requires |p.typeIdx| == |p.types| && Holds(data, HEADER_SIZE, Ids(p))
    ensures Holds(data, HEADER_SIZE, AllWords(StringOffsets(p)))
    ensures Holds(data, TypeIdsOff(p), AllWords(p.typeIdx))
    ensures Holds(data, ProtoIdsOff(p), AllWords(ProtoWords(p)))
    ensures Holds(data, MethodIdsOff(p), MethodRecords(p.owner, p.methods, |p.methods|))
    ensures Holds(data, ClassDefsOff(p), AllWords(ClassDef(p)))
    ensures HEADER_SIZE + |Ids(p)| == DataOff(p)
  {
    var methods, classDef := MethodRecords(p.owner, p.methods, |p.methods|), AllWords(ClassDef(p));
    var protos, types := AllWords(ProtoWords(p)), AllWords(p.typeIdx);
    HoldsParts(data, HEADER_SIZE, AllWords(StringOffsets(p)), types + (protos + (methods + classDef)));
    HoldsParts(data, TypeIdsOff(p), types, protos + (methods + classDef));
    HoldsParts(data, ProtoIdsOff(p), protos, methods + classDef);
    HoldsParts(data, MethodIdsOff(p), methods, classDef);
  }

  lemma DataLaidOut(data: Text, p: Plan)
    requires Holds(data, DataOff(p), DataSection(p))
    ensures Holds(data, DataOff(p), Strings(p)) && Holds(data, ClassDataOff(p), ClassData(|p.methods|))
    ensures Holds(data, TypeListOff(p), TypeList(p.stringType))
    ensures Holds(data, MapOff(p), U32(10)) && Holds(data, MapOff(p) + 4, MapRecords(SortByOffset(MapItems(p)), 10))
  {
    var records := MapRecords(SortByOffset(MapItems(p)), 10);
    assert DataSection(p) == PaddedLists(p) + U32(10) + records;
    HoldsParts(data, DataOff(p), PaddedLists(p) + U32(10), records);
    HoldsParts(data, DataOff(p), PaddedLists(p), U32(10));
    ListsLaidOut(data, p);
  }

  lemma ListsLaidOut(data: Text, p: Plan)
    requires Holds(data, DataOff(p), PaddedLists(p))
    ensures Holds(data, DataOff(p), Strings(p)) && Holds(data, ClassDataOff(p), ClassData(|p.methods|))
    ensures Holds(data, TypeListOff(p), TypeList(p.stringType))
  {
    HoldsParts(data, DataOff(p), Lists(p), Padding(DataOff(p) + |Lists(p)|));
    HoldsParts(data, DataOff(p), PaddedStrings(p) + TypeList(p.stringType), ClassData(|p.methods|));
    HoldsParts(data, DataOff(p), PaddedStrings(p), TypeList(p.stringType));
    HoldsParts(data, DataOff(p), Strings(p), Padding(DataOff(p) + |Strings(p)|));
  }

  lemma ImageLaidOut(p: Plan, checksum: nat, signature: Text)
    requires |p.typeIdx| == |p.types| && |signature| == 20
    ensures LaidOut(Image(p, checksum, signature), p) && |Image(p, checksum, signature)| == FileSize(p)
  {
    var data := Image(p, checksum, signature);
    var front := Magic() + U32(checksum) + signature;
    assert Holds(data, 0, data);
    assert data[..4] == Magic()[..4];
    assert Magic()[..4] == Ascii("dex\n");
    HoldsParts(data, 0, front, Body(p));
    BodyLaidOut(data, p);
  }

  lemma BodyLaidOut(data: Text, p: Plan)
    requires |p.typeIdx| == |p.types| && Holds(data, 0x20, Body(p))
    ensures Holds(data, 0x20, AllWords(HeaderWords(p))) && 0x20 + |Body(p)| == FileSize(p)
    ensures Holds(data, HEADER_SIZE, Ids(p)) && HEADER_SIZE + |Ids(p)| == DataOff(p)
    ensures Holds(data, DataOff(p), DataSection(p))
    ensures LooksLikeDex(data) ==> LaidOut(data, p)
  {
    var header, ids, rest := AllWords(HeaderWords(p)), Ids(p), DataSection(p);
    assert |header| == 80;
    HoldsParts(data, 0x20, header + ids, rest);
    HoldsParts(data, 0x20, header, ids);
    IdsLaidOut(data, p);
    DataLaidOut(data, p);
  }

  // -------------------------------------------------- an image as a dex file

  ghost predicate Fit(ns: seq<nat>) {
    forall i :: 0 <= i < |ns| ==> ns[i] < U32_LIMIT
  }

  lemma StringOffsetFound(data: Text, strings: seq<Text>, start: nat, i: nat)
    requires Holds(data, HEADER_SIZE, AllWords(StringStarts(strings, start, |strings|)))
    requires start + |StringData(strings, |strings|)| < U32_LIMIT && i < |strings|
    ensures ReadU32(data, HEADER_SIZE + 4 * i) == Ok(start + |StringData(strings, i)|)
  {
    StringDataGrows(strings, |strings|, i);
    StringStartAt(strings, start, |strings|, i);
    WordsRead(data, HEADER_SIZE, StringStarts(strings, start, |strings|), |strings|, i);
  }

  lemma ThreeParts(data: Text, at: nat, a: Text, b: Text, c: Text)
    requires Holds(data, at, a + b + c)
    ensures Holds(data, at, a) && Holds(data, at + |a|, b) && Holds(data, at + |a| + |b|, c)
  {
    HoldsParts(data, at, a + b, c);
    HoldsParts(data, at, a, b);
  }

  lemma RecordRead(data: Text, at: nat, owner: nat, name: nat)
    requires Holds(data, at, MethodRecord(owner, name)) && owner < 0x1_0000 && name < U32_LIMIT
    ensures ReadU16(data, at) == Ok(owner) && ReadU32(data, at + 4) == Ok(name)
  {
    ThreeParts(data, at, U16(owner), U16(0), U32(name));
    HalfRead(data, at, owner);
    WordRead(data, at + 4, name);
  }

  lemma RecordFound(data: Text, table: nat, owner: nat, names: seq<nat>, k: nat)
    requires Holds(data, table, MethodRecords(owner, names, |names|)) && k < |names|
    requires owner < 0x1_0000 && names[k] < U32_LIMIT
    ensures ReadU16(data, table + 8 * k) == Ok(owner) && ReadU32(data, table + 8 * k + 4) == Ok(names[k])
  {
    MethodHeld(data, table, owner, names, |names|, k);
    RecordRead(data, table + 8 * k, owner, names[k]);
  }

  lemma HeaderFound(data: Text, words: seq<nat>)
    requires |words| == 20 && Fit(words) && Holds(data, 0x20, AllWords(words))
    ensures |data| >= 0x70
    ensures Word(data, 0x38) == words[6] && Word(data, 0x3c) == words[7]
    ensures Word(data, 0x40) == words[8] && Word(data, 0x44) == words[9]
    ensures Word(data, 0x58) == words[14] && Word(data, 0x5c) == words[15]
    ensures Word(data, 0x60) == words[16] && Word(data, 0x64) == words[17]
  {
    forall i | 0 <= i < 20 ensures 0x20 + 4 * i + 4 <= |data| && Word(data, 0x20 + 4 * i) == words[i] {
      WordsRead(data, 0x20, words, 20, i);
    }
    assert Word(data, 0x20 + 4 * 6) == words[6] && Word(data, 0x20 + 4 * 7) == words[7];
    assert Word(data, 0x20 + 4 * 8) == words[8] && Word(data, 0x20 + 4 * 9) == words[9];
    assert Word(data, 0x20 + 4 * 14) == words[14] && Word(data, 0x20 + 4 * 15) == words[15];
    assert Word(data, 0x20 + 4 * 16) == words[16] && Word(data, 0x20 + 4 * 17) == words[17];
  }

  /** The strings as they are read back. */
  ghost function Cut(strings: seq<Text>): (cut: seq<Text>)
    ensures |cut| == |strings|
  {
    seq(|strings|, i requires 0 <= i < |strings| => UpToNul(strings[i]))
  }

  /** The methods as the class data lists them: numbered one after another, with no code. */
  ghost function Listed(n: nat): (ms: seq<F.Defined>)
    ensures |ms| == n && forall k :: 0 <= k < n ==> ms[k] == F.Defined(if k == 0 then 0 else 1, METHOD_FLAGS, 0)
  {
    if n == 0 then [] else Listed(n - 1) + [F.Defined(if n == 1 then 0 else 1, METHOD_FLAGS, 0)]
  }

  ghost function OneClassData(n: nat): F.ClassData { F.ClassData([], [], Listed(n), []) }

  ghost function MethodIds(owner: nat, names: seq<nat>): (ids: seq<F.MethodId>)
    ensures |ids| == |names|
  {
    seq(|names|, k requires 0 <= k < |names| => F.MethodId(owner, names[k]))
  }

  ghost function FileOf(p: Plan): F.File {
    F.File(HEADER_SIZE, Cut(p.strings), TypeIdsOff(p), p.typeIdx, MethodIdsOff(p), MethodIds(p.owner, p.methods),
           ClassDefsOff(p), [F.ClassDef(p.owner, ClassDataOff(p))])
  }

  lemma {:induction false} ListedIsEncoded(n: nat)
    ensures F.Methods(Listed(n)) == EncodedMethods(n)
  {
    if n > 0 {
      var last := F.Defined(if n == 1 then 0 else 1, METHOD_FLAGS, 0);
      ListedIsEncoded(n - 1);
      F.MethodsAppend(Listed(n - 1), [last]);
      assert F.Methods([last]) == Uvarint(last.diff) + (Uvarint(METHOD_FLAGS) + (Uvarint(0) + F.Methods([])));
      F.RegroupFour(Uvarint(last.diff), Uvarint(METHOD_FLAGS), Uvarint(0), [], []);
    }
  }

  lemma {:induction false} SumOfListed(n: nat, k: nat)
    requires k < n
    ensures F.Sum(Listed(n), k + 1) == k
  {
    if k > 0 { SumOfListed(n, k - 1); }
  }

  lemma ItemIsClassData(n: nat)
    ensures F.ClassDataItem(OneClassData(n)) == ClassData(n)
  {
    ListedIsEncoded(n);
    NothingAround(EncodedMethods(n));
    assert F.ClassDataItem(OneClassData(n)) == F.AfterCounts(0, 0, n, 0, EncodedMethods(n));
    F.RegroupFour(Uvarint(0), Uvarint(0), Uvarint(n), Uvarint(0), EncodedMethods(n));
  }

  lemma NothingAround(t: Text)
    ensures [] + ([] + (t + [])) == t
  {
  }

  lemma ClassDataStands(data: Text, off: nat, n: nat)
    requires Holds(data, off, ClassData(n)) && n < U32_LIMIT
    ensures F.ClassDataStands(data, off, OneClassData(n))
  {
    ItemIsClassData(n);
  }

  lemma StringStands(data: Text, strings: seq<Text>, start: nat, i: nat)
    requires Holds(data, HEADER_SIZE, AllWords(StringStarts(strings, start, |strings|)))
    requires Holds(data, start, StringData(strings, |strings|))
    requires |data| < U32_LIMIT && i < |strings|
    ensures F.StringAtWord(data, HEADER_SIZE + 4 * i, UpToNul(strings[i]))
  {
    var off := start + |StringData(strings, i)|;
    StringOffsetFound(data, strings, start, i);
    StringHeld(data, start, strings, |strings|, i);
    CutHeld(data, off, strings[i]);
    UpToNulIsSame(strings[i]);
    assert F.WordAt(data, HEADER_SIZE + 4 * i, off);
  }

  /** A string item holds its text up to a NUL, if it has one. */
  lemma CutHeld(data: Text, off: nat, t: Text)
    requires Holds(data, off, StringItem(t))
    ensures Holds(data, off, Uvarint(|t|) + (UpToNul(t) + [0]))
  {
    var rest := BehindNul(t);
    Splice(Uvarint(|t|), t, [0], UpToNul(t) + [0], rest);
    HoldsParts(data, off, Uvarint(|t|) + (UpToNul(t) + [0]), rest);
  }

  lemma Splice(u: Text, t: Text, z: Text, cut: Text, rest: Text)
    requires t + z == cut + rest
    ensures u + t + z == (u + cut) + rest
  {
    assert u + t + z == u + (t + z);
  }

  lemma OneJoin(a: Text, b: Text, c: Text)
    ensures (a + b) + c == a + (b + c)
  {
  }

  lemma BehindNul(t: Text) returns (rest: Text)
    ensures t + [0] == (UpToNul(t) + [0]) + rest
  {
    var end := FindNul(t, 0);
    if end.None? {
      rest := [];
    } else {
      rest := t[end.value + 1..] + [0];
      assert t == (t[..end.value] + [0]) + t[end.value + 1..];
      OneJoin(t[..end.value] + [0], t[end.value + 1..], [0]);
    }
  }

  lemma StringsStand(data: Text, p: Plan)
    requires LaidOut(data, p) && |data| == FileSize(p) < U32_LIMIT
    ensures F.StringsStand(data, FileOf(p))
  {
    forall i | 0 <= i < |p.strings| ensures F.StringAtWord(data, HEADER_SIZE + 4 * i, UpToNul(p.strings[i])) {
      StringStands(data, p.strings, DataOff(p), i);
    }
  }

  lemma TypesStand(data: Text, p: Plan)
    requires Holds(data, TypeIdsOff(p), AllWords(p.typeIdx)) && Fit(p.typeIdx)
    requires forall i :: 0 <= i < |p.typeIdx| ==> p.typeIdx[i] < |p.strings|
    ensures F.TypesStand(data, FileOf(p))
  {
    forall i | 0 <= i < |p.typeIdx| ensures F.WordAt(data, TypeIdsOff(p) + 4 * i, p.typeIdx[i]) {
      WordsRead(data, TypeIdsOff(p), p.typeIdx, |p.typeIdx|, i);
    }
  }

  lemma MethodsStand(data: Text, p: Plan)
    requires Holds(data, MethodIdsOff(p), MethodRecords(p.owner, p.methods, |p.methods|))
    requires p.owner < |p.typeIdx| && p.owner < 0x1_0000 && Fit(p.methods)
    requires forall k :: 0 <= k < |p.methods| ==> p.methods[k] < |p.strings|
    ensures F.MethodsStand(data, FileOf(p))
  {
    forall k | 0 <= k < |p.methods|
      ensures F.HalfAt(data, MethodIdsOff(p) + 8 * k, p.owner) && F.WordAt(data, MethodIdsOff(p) + 8 * k + 4, p.methods[k])
    {
      RecordFound(data, MethodIdsOff(p), p.owner, p.methods, k);
    }
  }

  lemma ClassesStand(data: Text, p: Plan)
    requires Fit(ClassDef(p)) && Holds(data, ClassDefsOff(p), AllWords(ClassDef(p))) && p.owner < |p.typeIdx|
    ensures F.ClassesStand(data, FileOf(p))
  {
    WordsRead(data, ClassDefsOff(p), ClassDef(p), 8, 0);
    WordsRead(data, ClassDefsOff(p), ClassDef(p), 8, 6);
  }

  /** An image is a dex file with these tables. */
  lemma ImageStands(data: Text, p: Plan, descriptor: Text, names: seq<Text>)
    requires LaidOut(data, p) && Sane(p, descriptor, names) && |data| == FileSize(p) < U32_LIMIT
    ensures F.Stands(data, FileOf(p)) && F.ClassDataStands(data, ClassDataOff(p), OneClassData(|p.methods|))
  {
    NumbersFit(p, descriptor, names);
    StringsStand(data, p);
    TypesStand(data, p);
    MethodsStand(data, p);
    ClassesStand(data, p);
    HeaderStands(data, p);
    SectionsInOrder(p);
    ClassDataStands(data, ClassDataOff(p), |p.methods|);
  }

  lemma HeaderStands(data: Text, p: Plan)
    requires LaidOut(data, p) && |p.typeIdx| == |p.types| && FileSize(p) < U32_LIMIT
    ensures F.HeaderStands(data, FileOf(p))
  {
    HeaderFits(p);
    HeaderFound(data, HeaderWords(p));
    assert Ascii("dex\n") == [0x64, 0x65, 0x78, 0x0a];
  }

  /** The names as they are read back. */
  ghost function Truncated(names: seq<Text>): set<Text> { set n | n in names :: UpToNul(n) }

  /** The report on the class: all its names, and all of them static. */
  lemma ReportOfImage(p: Plan, descriptor: Text, names: seq<Text>, info: Info)
    requires Sane(p, descriptor, names) && F.Indexed(FileOf(p))
    requires F.IsReport(FileOf(p), UpToNul(descriptor), Listed(|p.methods|), info)
    ensures info.any == Truncated(names) && info.statics == Truncated(names)
  {
    var f, owner, listed := FileOf(p), UpToNul(descriptor), Listed(|p.methods|);
    forall x ensures F.HasMethod(f, owner, x) <==> x in Truncated(names) {
      OwnMethodOfImage(p, descriptor, names, x);
    }
    forall x ensures F.ListsStatic(f, owner, listed, x) <==> F.HasMethod(f, owner, x) {
      StaticMethodOfImage(p, owner, x);
    }
  }

  lemma OwnMethodOfImage(p: Plan, descriptor: Text, names: seq<Text>, x: Text)
    requires Sane(p, descriptor, names) && F.Indexed(FileOf(p))
    ensures F.HasMethod(FileOf(p), UpToNul(descriptor), x) <==> x in Truncated(names)
  {
    var f, owner := FileOf(p), UpToNul(descriptor);
    if F.HasMethod(f, owner, x) {
      var i: nat :| F.OwnMethod(f, owner, i, x);
    }
    if x in Truncated(names) {
      var n :| n in names && x == UpToNul(n);
      var k: nat :| k < |p.methods| && p.strings[p.methods[k]] == n;
      assert F.OwnMethod(f, owner, k, x);
    }
  }

  /** The k-th method listed is method k, and static. */
  lemma StaticMethodOfImage(p: Plan, owner: Text, x: Text)
    requires F.Indexed(FileOf(p))
    ensures F.ListsStatic(FileOf(p), owner, Listed(|p.methods|), x) <==> F.HasMethod(FileOf(p), owner, x)
  {
    var f, listed := FileOf(p), Listed(|p.methods|);
    forall k: nat | k < |listed| ensures F.Sum(listed, k + 1) == k && F.StaticBit(listed[k].flags) {
      SumOfListed(|listed|, k);
    }
    if F.HasMethod(f, owner, x) {
      var i: nat :| F.OwnMethod(f, owner, i, x);
      assert F.OwnMethod(f, owner, F.Sum(listed, i + 1), x);
    }
  }

  /** Scanning an image: the class is found under its descriptor as read back, with all its methods. */
  lemma ScanOfImage(data: Text, p: Plan, descriptor: Text, names: seq<Text>, sought: Text)
    requires LaidOut(data, p) && Sane(p, descriptor, names) && |data| == FileSize(p) < U32_LIMIT
    ensures ScanDex(data, sought) ==
            Ok(if sought == UpToNul(descriptor) then Some(Info(Truncated(names), Truncated(names), true)) else None)
  {
    var f := FileOf(p);
    ImageStands(data, p, descriptor, names);
    OnlyClass(p, descriptor, names, sought);
    if sought == UpToNul(descriptor) {
      SectionsInOrder(p);
      var info := F.ScanOfClass(data, f, sought, 0, OneClassData(|p.methods|));
      assert F.All(OneClassData(|p.methods|)) == Listed(|p.methods|);
      ReportOfImage(p, descriptor, names, info);
    } else {
      F.ScanOfAbsentClass(data, f, sought);
    }
  }

  lemma OnlyClass(p: Plan, descriptor: Text, names: seq<Text>, sought: Text)
    requires Sane(p, descriptor, names) && F.Indexed(FileOf(p))
    ensures |FileOf(p).classes| == 1
    ensures sought == UpToNul(descriptor) ==> F.IsLast(FileOf(p), 1, sought, 0)
    ensures sought != UpToNul(descriptor) ==> !F.Names(FileOf(p), 0, sought)
  {
    assert F.Names(FileOf(p), 0, sought) <==> sought == UpToNul(descriptor);
  }

  /** Everything is before the end of the file. */
  lemma SectionsInOrder(p: Plan)
    ensures |p.strings| < TypeIdsOff(p) <= ProtoIdsOff(p) < MethodIdsOff(p) <= ClassDefsOff(p) < DataOff(p)
    ensures |p.types| < DataOff(p) && |p.methods| < DataOff(p) <= DataOff(p) + |Strings(p)| <= TypeListOff(p)
    ensures TypeListOff(p) < ClassDataOff(p) <= MapOff(p) < FileSize(p) && |DataSection(p)| < FileSize(p)
  {
  }

  lemma HeaderFits(p: Plan)
    requires FileSize(p) < U32_LIMIT
    ensures Fit(HeaderWords(p))
  {
    SectionsInOrder(p);
  }

  lemma MapFits(p: Plan)
    requires FileSize(p) < U32_LIMIT
    ensures forall i :: 0 <= i < 10 ==> MapItems(p)[i].size < U32_LIMIT && MapItems(p)[i].offset < U32_LIMIT
  {
    SectionsInOrder(p);
  }

  /** No number that is packed has more than 32 bits, if the file size has not. */
  lemma NumbersFit(p: Plan, descriptor: Text, names: seq<Text>)
    requires Sane(p, descriptor, names) && FileSize(p) < U32_LIMIT
    ensures Fit(StringOffsets(p)) && Fit(p.typeIdx) && Fit(ProtoWords(p)) && Fit(p.methods) && Fit(ClassDef(p))
    ensures p.owner < 0x1_0000 && p.stringType < 0x1_0000
  {
    SectionsInOrder(p);
    OffsetsFit(p.strings, DataOff(p), FileSize(p));
  }

  lemma OffsetsFit(strings: seq<Text>, start: nat, limit: nat)
    requires start + |StringData(strings, |strings|)| <= limit < U32_LIMIT
    ensures Fit(StringStarts(strings, start, |strings|))
  {
    var starts := StringStarts(strings, start, |strings|);
    forall i | 0 <= i < |starts| ensures starts[i] < U32_LIMIT {
      StringDataGrows(strings, |strings|, i);
      StringStartAt(strings, start, |strings|, i);
    }
  }

  /** What a reader of the image expects of the scanner: the class under its own descriptor and no
      other, with its methods, all static, under their own names. */
  ghost predicate ScansAs(data: Text, descriptor: Text, names: seq<Text>) {
    && ScanDex(data, descriptor) == Ok(Some(Info(Elements(names), Elements(names), true)))
    && forall other :: other != descriptor ==> ScanDex(data, other) == Ok(None)
  }

  /** The scanner undoes the builder exactly when no name holds a NUL.  Repeated names and the two
      java.lang descriptors are no exception. */
  lemma DexRoundTrip(descriptor: Text, names: seq<Text>, sha1: Text -> Signature, adler32: Text -> Checksum)
    ensures var built := DexImage(descriptor, names, sha1, adler32);
            built.Ok? ==> (ScansAs(built.value, descriptor, names) <==> NulFree(descriptor) && forall n :: n in names ==> NulFree(n))
  {
    var p := PlanOf(descriptor, names);
    PlanIsSane(descriptor, names);
    var signature := sha1(Body(p));
    SaneImageScansAs(p, descriptor, names, adler32(signature + Body(p)), signature);
  }

  lemma SaneImageScansAs(p: Plan, descriptor: Text, names: seq<Text>, checksum: nat, signature: Signature)
    requires Sane(p, descriptor, names)
    ensures FileSize(p) < U32_LIMIT ==>
              (ScansAs(Image(p, checksum, signature), descriptor, names) <==> NulFree(descriptor) && forall n :: n in names ==> NulFree(n))
  {
    if FileSize(p) < U32_LIMIT {
      ImageLaidOut(p, checksum, signature);
      ImageScansAs(Image(p, checksum, signature), p, descriptor, names);
    }
  }

  lemma ImageScansAs(data: Text, p: Plan, descriptor: Text, names: seq<Text>)
    requires LaidOut(data, p) && Sane(p, descriptor, names) && |data| == FileSize(p) < U32_LIMIT
    ensures ScansAs(data, descriptor, names) <==> NulFree(descriptor) && forall n :: n in names ==> NulFree(n)
  {
    forall sought ensures ScanDex(data, sought) ==
      Ok(if sought == UpToNul(descriptor) then Some(Info(Truncated(names), Truncated(names), true)) else None)
    {
      ScanOfImage(data, p, descriptor, names, sought);
    }
    UpToNulIsSame(descriptor);
    TruncatedIsSame(names);
  }

  lemma TruncatedIsSame(names: seq<Text>)
    ensures Truncated(names) == Elements(names) <==> forall n :: n in names ==> NulFree(n)
  {
    forall n ensures UpToNul(n) == n <==> NulFree(n) { UpToNulIsSame(n); }
    forall n ensures NulFree(UpToNul(n)) { UpToNulIsSame(n); }
    if forall n :: n in names ==> NulFree(n) {
      assert forall x :: x in Truncated(names) <==> x in names;
    } else {
      var n :| n in names && !NulFree(n);
      assert n in Elements(names) && n !in Truncated(names);
    }
  }

  // ----------------------------------------------------- the builder's side

  lemma PackedNumbersFit(descriptor: Text, names: seq<Text>)
    requires FileSize(PlanOf(descriptor, names)) < U32_LIMIT
    ensures var p := PlanOf(descriptor, names);
            && Fit(HeaderWords(p)) && Fit(StringOffsets(p)) && Fit(p.typeIdx) && Fit(ProtoWords(p)) && Fit(p.methods) && Fit(ClassDef(p))
            && (forall i :: 0 <= i < 10 ==> MapItems(p)[i].size < U32_LIMIT && MapItems(p)[i].offset < U32_LIMIT)
            && p.owner < 0x1_0000 && p.stringType < 0x1_0000
  {
    PlanIsSane(descriptor, names);
    HeaderFits(PlanOf(descriptor, names));
    MapFits(PlanOf(descriptor, names));
    NumbersFit(PlanOf(descriptor, names), descriptor, names);
  }

  ghost predicate Ascending(items: seq<MapItem>) {
    forall i, j :: 0 <= i < j < |items| ==> items[i].offset <= items[j].offset
  }

  lemma SortUnfolds(front: seq<MapItem>, last: MapItem)
    ensures SortByOffset(front + [last]) == InsertByOffset(SortByOffset(front), last)
  {
    var items := front + [last];
    assert items[..|items| - 1] == front;
  }

  lemma AscendingFront(front: seq<MapItem>, last: MapItem)
    requires Ascending(front + [last])
    ensures Ascending(front) && (front != [] ==> front[|front| - 1].offset <= last.offset)
  {
    var items := front + [last];
    forall i, j | 0 <= i < j < |front| ensures front[i].offset <= front[j].offset {
      assert items[i].offset <= items[j].offset;
    }
    if front != [] { assert items[|front| - 1].offset <= items[|front|].offset; }
  }

  lemma {:induction false} SortedStays(items: seq<MapItem>)
    requires Ascending(items)
    ensures SortByOffset(items) == items
  {
    if items != [] {
      var front, last := items[..|items| - 1], items[|items| - 1];
      assert items == front + [last];
      AscendingFront(front, last);
      SortedStays(front);
      SortUnfolds(front, last);
    }
  }

  /** The map is written in ascending offset order with its own entry last, as the format asks. */
  lemma MapIsInOrder(p: Plan)
    ensures Ascending(SortByOffset(MapItems(p)))
    ensures SortByOffset(MapItems(p))[9] == MapItem(0x1000, 1, MapOff(p))
  {
    SortedStays(MapItems(p));
  }

  /** Every section the map lists is where the header, the prototype, the class and the first string's
      identifier say, and as large. */
  lemma MapAgreesWithHeader(p: Plan)
    requires p.strings != []
    ensures SortByOffset(MapItems(p)) == Sections(HeaderWords(p), StringOffsets(p)[0], ProtoWords(p)[2], ClassDef(p)[6])
  {
    SortedStays(MapItems(p));
    StringStartAt(p.strings, DataOff(p), |p.strings|, 0);
  }

  /** The sections as the other tables give them; the map itself comes last. */
  ghost function Sections(header: seq<nat>, firstString: nat, typeList: nat, classData: nat): seq<MapItem>
    requires |header| == 20
  {
    [MapItem(0x0000, 1, 0),
     MapItem(0x0001, header[6], header[7]),
     MapItem(0x0002, header[8], header[9]),
     MapItem(0x0003, header[10], header[11]),
     MapItem(0x0005, header[14], header[15]),
     MapItem(0x0006, header[16], header[17]),
     MapItem(0x2002, header[6], firstString),
     MapItem(0x1001, 1, typeList),
     MapItem(0x2000, 1, classData),
     MapItem(0x1000, 1, header[5])]
  }

  // ---------------------------------------------- what else the format asks

  ghost predicate Ordered(ns: seq<nat>) {
    forall i, j :: 0 <= i < j < |ns| ==> ns[i] <= ns[j]
  }

  lemma {:induction false} InsertNatSorts(sorted: seq<nat>, n: nat)
    requires Ordered(sorted)
    ensures Ordered(InsertNat(sorted, n))
  {
    if sorted != [] && n > sorted[0] {
      InsertNatSorts(sorted[1..], n);
      InsertNatElements(sorted[1..], n);
      var tail := InsertNat(sorted[1..], n);
      forall j | 0 <= j < |tail| ensures sorted[0] <= tail[j] {
        assert tail[j] in tail;
        assert tail[j] == n || tail[j] in sorted[1..];
      }
    }
  }

  lemma {:induction false} SortNatsSorts(ns: seq<nat>)
    ensures Ordered(SortNats(ns))
  {
    if ns != [] {
      SortNatsSorts(ns[1..]);
      InsertNatSorts(SortNats(ns[1..]), ns[0]);
    }
  }

  /** Indices of sorted texts in a sorted table ascend. */
  lemma IndicesAscend(strings: seq<Text>, types: seq<Text>, idx: seq<nat>, i: nat, j: nat)
    requires StrictlySorted(strings) && StrictlySorted(types) && |idx| == |types| && i < j < |idx|
    requires idx[i] < |strings| && idx[j] < |strings| && strings[idx[i]] == types[i] && strings[idx[j]] == types[j]
    ensures idx[i] < idx[j]
  {
    assert Less(types[i], types[j]);
    LessAsymmetric(types[i], types[j]);
  }

  /** The tables are ordered as the format asks: strings by their bytes, types by the index of their
      descriptor, the methods of the one class by the index of their name. */
  lemma TablesAreInOrder(descriptor: Text, names: seq<Text>)
    ensures var p := PlanOf(descriptor, names);
            && StrictlySorted(p.strings) && Ordered(p.methods)
            && forall i, j :: 0 <= i < j < |p.typeIdx| ==> p.typeIdx[i] < p.typeIdx[j]
  {
    var p := PlanOf(descriptor, names);
    PlanIsSane(descriptor, names);
    PlanIsSorted(descriptor, names);
    forall i, j | 0 <= i < j < |p.typeIdx| ensures p.typeIdx[i] < p.typeIdx[j] {
      IndicesAscend(p.strings, p.types, p.typeIdx, i, j);
    }
  }

  lemma PlanIsSorted(descriptor: Text, names: seq<Text>)
    ensures var p := PlanOf(descriptor, names); StrictlySorted(p.strings) && StrictlySorted(p.types) && Ordered(p.methods)
  {
    var strings := SortedSeq({descriptor, StringType(), ObjectType(), Shorty()} + Elements(names));
    var types := SortedSeq({StringType(), descriptor, ObjectType()});
    SortedTablesCover(descriptor, names, strings, types);
    assert PlanOf(descriptor, names) == PlanFrom(descriptor, names, strings, types);
    SortNatsSorts(NameIndices(strings, names));
  }

  /** What says of itself that the file is whole: its size, where its map and its data end, a signature
      over everything behind it and a checksum over that and the signature. */
  lemma BuiltIsSealed(descriptor: Text, names: seq<Text>, sha1: Text -> Signature, adler32: Text -> Checksum)
    ensures var built := DexImage(descriptor, names, sha1, adler32);
            built.Ok? ==>
              var data := built.value;
              && |data| >= 0x70 && data[..8] == [100, 101, 120, 10, 48, 51, 53, 0]
              && Word(data, 8) == adler32(data[12..]) && data[12..32] == sha1(data[32..])
              && Word(data, 0x20) == |data| && Word(data, 0x24) == 0x70 && Word(data, 0x28) == 0x12345678
              && Word(data, 0x68) + Word(data, 0x6c) == |data|
              && Word(data, 0x34) + 4 + 12 * 10 == |data| && Word(data, Word(data, 0x34)) == 10
  {
    var p := PlanOf(descriptor, names);
    PlanIsSane(descriptor, names);
    var signature := sha1(Body(p));
    var checksum := adler32(signature + Body(p));
    if FileSize(p) < U32_LIMIT {
      ImageLaidOut(p, checksum, signature);
      HeaderIsSealed(Image(p, checksum, signature), p);
      FrontOfImage(p, checksum, signature);
    }
  }

  lemma FrontOfImage(p: Plan, checksum: Checksum, signature: Signature)
    ensures var data := Image(p, checksum, signature);
            && |data| >= 32 && data[..8] == [100, 101, 120, 10, 48, 51, 53, 0]
            && Word(data, 8) == checksum
            && data[12..32] == signature && data[32..] == Body(p) && data[12..] == signature + Body(p)
  {
    assert Magic() == [100, 101, 120, 10, 48, 51, 53, 0];
    FourParts(Magic(), U32(checksum), signature, Body(p));
    WordRead(Image(p, checksum, signature), 8, checksum);
  }

  lemma FourParts(a: Text, b: Text, c: Text, d: Text)
    ensures var all, x := a + b + c + d, |a| + |b|;
            && all[..|a|] == a && Holds(all, |a|, b)
            && all[x..x + |c|] == c && all[x + |c|..] == d && all[x..] == c + d
  {
  }

  lemma HeaderIsSealed(data: Text, p: Plan)
    requires LaidOut(data, p) && |data| == FileSize(p) < U32_LIMIT
    ensures Word(data, 0x20) == |data| && Word(data, 0x24) == 0x70 && Word(data, 0x28) == 0x12345678
    ensures Word(data, 0x68) + Word(data, 0x6c) == |data|
    ensures Word(data, 0x34) + 4 + 12 * 10 == |data| && Word(data, Word(data, 0x34)) == 10
  {
    HeaderFits(p);
    HeaderWordRead(data, p, 0);
    HeaderWordRead(data, p, 1);
    HeaderWordRead(data, p, 2);
    HeaderWordRead(data, p, 5);
    HeaderWordRead(data, p, 18);
    HeaderWordRead(data, p, 19);
    WordRead(data, MapOff(p), 10);
  }

  lemma HeaderWordRead(data: Text, p: Plan, i: nat)
    requires LaidOut(data, p) && Fit(HeaderWords(p)) && i < 20
    ensures 0x20 + 4 * i + 4 <= |data| && Word(data, 0x20 + 4 * i) == HeaderWords(p)[i]
  {
    WordsRead(data, 0x20, HeaderWords(p), 20, i);
  }

  /** A prototype that takes a string and returns one stands there. */
  ghost predicate ProtoStands(data: Text, at: nat, p: Plan) {
    && at + 12 <= |data|
    && At(p.strings, Word(data, at)) == Ok(Ascii("LL"))
    && At(p.types, Word(data, at + 4)) == Ok(Ascii("Ljava/lang/String;"))
    && var params := Word(data, at + 8);
    && params + 6 <= |data| && Word(data, params) == 1
    && var param := ReadU16(data, params + 4);
    && param.Ok? && At(p.types, param.value) == Ok(Ascii("Ljava/lang/String;"))
  }

  /** A public class below Object stands there, with no interfaces, source file, annotations or static values. */
  ghost predicate ClassStands(data: Text, at: nat, p: Plan, descriptor: Text) {
    && at + 32 <= |data|
    && At(p.types, Word(data, at)) == Ok(descriptor) && Word(data, at + 4) == 1
    && At(p.types, Word(data, at + 8)) == Ok(Ascii("Ljava/lang/Object;"))
    && Word(data, at + 12) == 0 && Word(data, at + 16) == 0xFFFF_FFFF && Word(data, at + 20) == 0 && Word(data, at + 28) == 0
  }

  ghost predicate IsOneClass(data: Text, p: Plan, descriptor: Text) {
    && |data| >= 0x70
    && Word(data, 0x48) == 1 && ProtoStands(data, Word(data, 0x4c), p)
    && Word(data, 0x60) == 1 && ClassStands(data, Word(data, 0x64), p, descriptor)
  }

  /** What the scanner does not read: the one prototype and the rest of the one class. */
  lemma BuiltIsOneClass(descriptor: Text, names: seq<Text>, sha1: Text -> Signature, adler32: Text -> Checksum)
    ensures var built := DexImage(descriptor, names, sha1, adler32);
            built.Ok? ==> IsOneClass(built.value, PlanOf(descriptor, names), descriptor)
  {
    var p := PlanOf(descriptor, names);
    PlanIsSane(descriptor, names);
    PlanRefers(descriptor, names);
    var signature := sha1(Body(p));
    SaneImageIsOneClass(p, descriptor, names, adler32(signature + Body(p)), signature);
  }

  lemma SaneImageIsOneClass(p: Plan, descriptor: Text, names: seq<Text>, checksum: Checksum, signature: Signature)
    requires Sane(p, descriptor, names) && Refers(p)
    ensures FileSize(p) < U32_LIMIT ==> IsOneClass(Image(p, checksum, signature), p, descriptor)
  {
    if FileSize(p) < U32_LIMIT {
      ImageLaidOut(p, checksum, signature);
      LaidOutIsOneClass(Image(p, checksum, signature), p, descriptor, names);
    }
  }

  lemma LaidOutIsOneClass(data: Text, p: Plan, descriptor: Text, names: seq<Text>)
    requires LaidOut(data, p) && Sane(p, descriptor, names) && Refers(p) && |data| == FileSize(p) < U32_LIMIT
    ensures IsOneClass(data, p, descriptor)
  {
    NumbersFit(p, descriptor, names);
    StandWhere(data, p);
    ProtoRead(data, ProtoIdsOff(p), p, TypeListOff(p));
    ClassRead(data, ClassDefsOff(p), p, ClassDef(p), descriptor);
  }

  /** The indices of a plan are those of the texts they are named after. */
  ghost predicate Refers(p: Plan) {
    && At(p.strings, p.shorty) == Ok(Ascii("LL")) && At(p.types, p.stringType) == Ok(Ascii("Ljava/lang/String;"))
    && At(p.types, p.objectType) == Ok(Ascii("Ljava/lang/Object;"))
  }

  lemma PlanRefers(descriptor: Text, names: seq<Text>)
    ensures Refers(PlanOf(descriptor, names))
  {
    var strings := SortedSeq({descriptor, StringType(), ObjectType(), Shorty()} + Elements(names));
    var types := SortedSeq({StringType(), descriptor, ObjectType()});
    SortedTablesCover(descriptor, names, strings, types);
    assert PlanOf(descriptor, names) == PlanFrom(descriptor, names, strings, types);
  }

  lemma StandWhere(data: Text, p: Plan)
    requires LaidOut(data, p) && |data| == FileSize(p) < U32_LIMIT
    ensures Word(data, 0x48) == 1 && Word(data, 0x4c) == ProtoIdsOff(p)
    ensures Word(data, 0x60) == 1 && Word(data, 0x64) == ClassDefsOff(p)
  {
    HeaderFits(p);
    HeaderWordRead(data, p, 10);
    HeaderWordRead(data, p, 11);
    HeaderWordRead(data, p, 16);
    HeaderWordRead(data, p, 17);
  }

  lemma ProtoRead(data: Text, at: nat, p: Plan, list: nat)
    requires var words := [p.shorty, p.stringType, list]; Fit(words) && Holds(data, at, AllWords(words))
    requires Refers(p) && p.stringType < 0x1_0000 && Holds(data, list, TypeList(p.stringType))
    ensures ProtoStands(data, at, p)
  {
    FirstWords(data, at, [p.shorty, p.stringType, list]);
    TypeListRead(data, list, p.stringType);
  }

  lemma ClassRead(data: Text, at: nat, p: Plan, words: seq<nat>, descriptor: Text)
    requires |words| == 8 && Fit(words) && Holds(data, at, AllWords(words))
    requires words[..6] == [p.owner, 1, p.objectType, 0, NO_INDEX, 0] && words[7] == 0
    requires Refers(p) && At(p.types, p.owner) == Ok(descriptor)
    ensures ClassStands(data, at, p, descriptor)
  {
    FirstWords(data, at, words);
    LastWords(data, at, words);
    forall i | 0 <= i < 6 ensures words[i] == words[..6][i] {}
  }

  lemma FirstWords(data: Text, at: nat, w: seq<nat>)
    requires |w| >= 3 && Fit(w) && Holds(data, at, AllWords(w))
    ensures at + 4 * |w| <= |data| && Word(data, at) == w[0] && Word(data, at + 4) == w[1] && Word(data, at + 8) == w[2]
  {
    WordsRead(data, at, w, |w|, 0);
    WordsRead(data, at, w, |w|, 1);
    WordsRead(data, at, w, |w|, 2);
  }

  lemma LastWords(data: Text, at: nat, w: seq<nat>)
    requires |w| == 8 && Fit(w) && Holds(data, at, AllWords(w))
    ensures at + 32 <= |data| && Word(data, at + 12) == w[3]
    ensures Word(data, at + 16) == w[4] && Word(data, at + 20) == w[5] && Word(data, at + 28) == w[7]
  {
    WordsRead(data, at, w, 8, 3);
    WordsRead(data, at, w, 8, 4);
    WordsRead(data, at, w, 8, 5);
    WordsRead(data, at, w, 8, 7);
  }

  lemma TypeListRead(data: Text, at: nat, param: nat)
    requires Holds(data, at, TypeList(param)) && param < 0x1_0000
    ensures at + 8 <= |data| && Word(data, at) == 1 && ReadU16(data, at + 4) == Ok(param)
  {
    HoldsParts(data, at, U32(1), U16(param) + U16(0));
    HoldsParts(data, at + 4, U16(param), U16(0));
    WordRead(data, at, 1);
    HalfRead(data, at + 4, param);
  }
}
