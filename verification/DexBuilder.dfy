/** The synthetic DEX builder of scripts/release/android-keystore-verify.py.  SHA-1 and Adler-32 are
    parameters. */
module DexBuilder {
  import opened Bytes
  import opened Leb128
  import opened Results
  import opened Dex

  const NO_INDEX := 0xFFFF_FFFF
  const HEADER_SIZE := 0x70
  /** public static native */
  const METHOD_FLAGS := 0x109

  function StringType(): Text { Ascii("Ljava/lang/String;") }
  function ObjectType(): Text { Ascii("Ljava/lang/Object;") }
  function Shorty(): Text { Ascii("LL") }

  /** A SHA-1 digest. */
  type Signature = t: Text | |t| == 20 witness seq(20, _ => 0)

  /** An Adler-32 checksum, masked to 32 bits. */
  type Checksum = n: nat | n < U32_LIMIT

  datatype MapItem = MapItem(kind: nat, size: nat, offset: nat)

  /** The tables the image is laid out from: strings and type descriptors in order, and the string
      index of each method's name in ascending order. */
  datatype Plan = Plan(strings: seq<Text>, types: seq<Text>, typeIdx: seq<nat>, methods: seq<nat>,
                       owner: nat, objectType: nat, stringType: nat, shorty: nat)

  // ---------------------------------------------------------------- parts

  function StringItem(t: Text): Text { Uvarint(|t|) + t + [0] }

  ghost function StringData(strings: seq<Text>, n: nat): Text
    requires n <= |strings|
  {
    if n == 0 then [] else StringData(strings, n - 1) + StringItem(strings[n - 1])
  }

  ghost function Words(ns: seq<nat>, n: nat): Text
    requires n <= |ns|
    ensures |Words(ns, n)| == 4 * n
  {
    if n == 0 then [] else Words(ns, n - 1) + U32(ns[n - 1])
  }

  ghost function AllWords(ns: seq<nat>): Text
    ensures |AllWords(ns)| == 4 * |ns|
  {
    Words(ns, |ns|)
  }

  function MethodRecord(owner: nat, name: nat): Text { U16(owner) + U16(0) + U32(name) }

  ghost function MethodRecords(owner: nat, names: seq<nat>, n: nat): Text
    requires n <= |names|
    ensures |MethodRecords(owner, names, n)| == 8 * n
  {
    if n == 0 then [] else MethodRecords(owner, names, n - 1) + MethodRecord(owner, names[n - 1])
  }

  /** The encoded form of method `i` in the class data: index difference, flags, no code. */
  function EncodedMethod(i: nat): Text {
    Uvarint(if i == 0 then 0 else 1) + Uvarint(METHOD_FLAGS) + Uvarint(0)
  }

  ghost function EncodedMethods(n: nat): Text {
    if n == 0 then [] else EncodedMethods(n - 1) + EncodedMethod(n - 1)
  }

  ghost function ClassData(n: nat): Text {
    Uvarint(0) + Uvarint(0) + Uvarint(n) + Uvarint(0) + EncodedMethods(n)
  }

  function Zeros(n: nat): (z: Text)
    ensures |z| == n
  {
    if n == 0 then [] else Zeros(n - 1) + [0]
  }

  /** Zeros up to the next multiple of four. */
  function Padding(at: nat): Text { Zeros((4 - at % 4) % 4) }

  function TypeList(param: nat): Text { U32(1) + (U16(param) + U16(0)) }

  function MapRecord(m: MapItem): Text { U16(m.kind) + U16(0) + U32(m.size) + U32(m.offset) }

  ghost function MapRecords(items: seq<MapItem>, n: nat): Text
    requires n <= |items|
    ensures |MapRecords(items, n)| == 12 * n
  {
    if n == 0 then [] else MapRecords(items, n - 1) + MapRecord(items[n - 1])
  }

  // --------------------------------------------------------------- layout

  ghost function TypeIdsOff(p: Plan): nat { HEADER_SIZE + 4 * |p.strings| }
  ghost function ProtoIdsOff(p: Plan): nat { TypeIdsOff(p) + 4 * |p.types| }
  ghost function MethodIdsOff(p: Plan): nat { ProtoIdsOff(p) + 12 }
  ghost function ClassDefsOff(p: Plan): nat { MethodIdsOff(p) + 8 * |p.methods| }
  ghost function DataOff(p: Plan): nat { ClassDefsOff(p) + 32 }

  ghost function Strings(p: Plan): Text { StringData(p.strings, |p.strings|) }
  ghost function PaddedStrings(p: Plan): Text { Strings(p) + Padding(DataOff(p) + |Strings(p)|) }
  ghost function TypeListOff(p: Plan): nat { DataOff(p) + |PaddedStrings(p)| }
  ghost function ClassDataOff(p: Plan): nat { TypeListOff(p) + 8 }
  ghost function Lists(p: Plan): Text { PaddedStrings(p) + TypeList(p.stringType) + ClassData(|p.methods|) }
  ghost function PaddedLists(p: Plan): Text { Lists(p) + Padding(DataOff(p) + |Lists(p)|) }
  ghost function MapOff(p: Plan): nat { DataOff(p) + |PaddedLists(p)| }

  ghost function StringOffsets(p: Plan): seq<nat> { StringStarts(p.strings, DataOff(p), |p.strings|) }

  ghost function MapItems(p: Plan): seq<MapItem> {
    [MapItem(0x0000, 1, 0),
     MapItem(0x0001, |p.strings|, HEADER_SIZE),
     MapItem(0x0002, |p.types|, TypeIdsOff(p)),
     MapItem(0x0003, 1, ProtoIdsOff(p)),
     MapItem(0x0005, |p.methods|, MethodIdsOff(p)),
     MapItem(0x0006, 1, ClassDefsOff(p)),
     MapItem(0x2002, |p.strings|, DataOff(p)),
     MapItem(0x1001, 1, TypeListOff(p)),
     MapItem(0x2000, 1, ClassDataOff(p)),
     MapItem(0x1000, 1, MapOff(p))]
  }

  /** Insert after the items at the same or a smaller offset, as a stable sort does. */
  function InsertByOffset(sorted: seq<MapItem>, m: MapItem): (r: seq<MapItem>)
    ensures |r| == |sorted| + 1
  {
    if sorted == [] || sorted[|sorted| - 1].offset <= m.offset then sorted + [m]
    else InsertByOffset(sorted[..|sorted| - 1], m) + [sorted[|sorted| - 1]]
  }

  function SortByOffset(items: seq<MapItem>): (r: seq<MapItem>)
    ensures |r| == |items|
  {
    if items == [] then [] else InsertByOffset(SortByOffset(items[..|items| - 1]), items[|items| - 1])
  }

  ghost function DataSection(p: Plan): Text {
    PaddedLists(p) + U32(|MapItems(p)|) + MapRecords(SortByOffset(MapItems(p)), |MapItems(p)|)
  }

  ghost function FileSize(p: Plan): nat { DataOff(p) + |DataSection(p)| }

  ghost function HeaderWords(p: Plan): seq<nat> {
    [FileSize(p), HEADER_SIZE, 0x12345678, 0, 0, MapOff(p),
     |p.strings|, HEADER_SIZE, |p.types|, TypeIdsOff(p), 1, ProtoIdsOff(p), 0, 0,
     |p.methods|, MethodIdsOff(p), 1, ClassDefsOff(p), |DataSection(p)|, DataOff(p)]
  }

  ghost function ClassDef(p: Plan): seq<nat> {
    [p.owner, 1, p.objectType, 0, NO_INDEX, 0, ClassDataOff(p), 0]
  }

  ghost function ProtoWords(p: Plan): seq<nat> { [p.shorty, p.stringType, TypeListOff(p)] }

  ghost function Ids(p: Plan): Text {
    AllWords(StringOffsets(p)) + (AllWords(p.typeIdx) + (AllWords(ProtoWords(p))
    + (MethodRecords(p.owner, p.methods, |p.methods|) + AllWords(ClassDef(p)))))
  }

  /** Everything from the file size on. */
  ghost function Body(p: Plan): Text {
    AllWords(HeaderWords(p)) + Ids(p) + DataSection(p)
  }

  function Magic(): Text { Ascii("dex\n035") + [0] }

  ghost function Image(p: Plan, checksum: nat, signature: Text): Text {
    Magic() + U32(checksum) + signature + Body(p)
  }

  // ------------------------------------------------------------- planning

  function IndexOf(list: seq<Text>, t: Text): (i: nat)
    requires t in list
    ensures i < |list| && list[i] == t
  {
    if list[0] == t then 0 else 1 + IndexOf(list[1..], t)
  }

  function InsertNat(sorted: seq<nat>, n: nat): seq<nat> {
    if sorted == [] || n <= sorted[0] then [n] + sorted else [sorted[0]] + InsertNat(sorted[1..], n)
  }

  function SortNats(ns: seq<nat>): seq<nat> {
    if ns == [] then [] else InsertNat(SortNats(ns[1..]), ns[0])
  }

  function NameIndices(strings: seq<Text>, names: seq<Text>): (ns: seq<nat>)
    requires forall n :: n in names ==> n in strings
    ensures |ns| == |names| && forall i :: 0 <= i < |names| ==> ns[i] == IndexOf(strings, names[i])
  {
    seq(|names|, i requires 0 <= i < |names| => IndexOf(strings, names[i]))
  }

  ghost predicate Covers(descriptor: Text, names: seq<Text>, strings: seq<Text>, types: seq<Text>) {
    && Elements(strings) == {descriptor, StringType(), ObjectType(), Shorty()} + Elements(names)
    && Elements(types) == {StringType(), descriptor, ObjectType()}
    && (forall t :: t in types ==> t in strings)
    && (forall n :: n in names ==> n in strings) && Shorty() in strings
    && StringType() in types && ObjectType() in types && descriptor in types
  }

  function PlanFrom(descriptor: Text, names: seq<Text>, strings: seq<Text>, types: seq<Text>): Plan
    requires Covers(descriptor, names, strings, types)
  {
    Plan(strings, types, NameIndices(strings, types), SortNats(NameIndices(strings, names)),
         IndexOf(types, descriptor), IndexOf(types, ObjectType()), IndexOf(types, StringType()), IndexOf(strings, Shorty()))
  }

  lemma SortedTablesCover(descriptor: Text, names: seq<Text>, strings: seq<Text>, types: seq<Text>)
    requires Elements(strings) == {descriptor, StringType(), ObjectType(), Shorty()} + Elements(names)
    requires Elements(types) == {StringType(), descriptor, ObjectType()}
    ensures Covers(descriptor, names, strings, types)
  {
    forall t ensures (t in types || t in names ==> t in strings) && (t in types <==> t in Elements(types))
      && (t in strings <==> t in Elements(strings)) {
      assert t in types <==> t in Elements(types);
      assert t in names ==> t in Elements(names);
    }
    assert Shorty() in Elements(strings);
  }

  ghost function PlanOf(descriptor: Text, names: seq<Text>): Plan {
    var strings := SortedSeq({descriptor, StringType(), ObjectType(), Shorty()} + Elements(names));
    var types := SortedSeq({StringType(), descriptor, ObjectType()});
    SortedTablesCover(descriptor, names, strings, types);
    PlanFrom(descriptor, names, strings, types)
  }

  ghost function DexImage(descriptor: Text, names: seq<Text>, sha1: Text -> Signature, adler32: Text -> Checksum): Parsed<Text> {
    var p := PlanOf(descriptor, names);
    var signature := sha1(Body(p));
    if FileSize(p) < U32_LIMIT then Ok(Image(p, adler32(signature + Body(p)), signature)) else Bad(ShortBuffer)
  }

  // -------------------------------------------------------------- builder

  method PutString(t: Text) returns (item: Text)
    ensures item == StringItem(t)
  {
    var length := PutUvarint(|t|);
    item := length + t + [0];
  }

  /** Where the first strings start, when the data starts at `start`. */
  ghost function StringStarts(strings: seq<Text>, start: nat, n: nat): (starts: seq<nat>)
    requires n <= |strings|
    ensures |starts| == n
  {
    if n == 0 then [] else StringStarts(strings, start, n - 1) + [start + |StringData(strings, n - 1)|]
  }

  method PutStrings(strings: seq<Text>, start: nat) returns (data: Text, offsets: seq<nat>)
    ensures data == StringData(strings, |strings|) && offsets == StringStarts(strings, start, |strings|)
  {
    data, offsets := [], [];
    for i := 0 to |strings|
      invariant data == StringData(strings, i) && offsets == StringStarts(strings, start, i)
    {
      offsets := offsets + [start + |data|];
      var item := PutString(strings[i]);
      data := data + item;
    }
  }

  method PutClassData(n: nat) returns (data: Text)
    ensures data == ClassData(n)
  {
    var count := PutUvarint(n);
    var flags := PutUvarint(METHOD_FLAGS);
    data := [0] + [0] + count + [0];
    ghost var counts := data;
    var prev := 0;
    for i := 0 to n
      invariant data == counts + EncodedMethods(i)
      invariant prev == if i == 0 then 0 else i - 1
    {
      var diff := PutUvarint(i - prev);
      data := data + (diff + flags + [0]);
      prev := i;
    }
  }

  method Pad(data: Text, start: nat) returns (padded: Text)
    ensures padded == data + Padding(start + |data|)
  {
    padded := data;
    while (start + |padded|) % 4 != 0
      invariant |data| <= |padded| <= |data| + (4 - (start + |data|) % 4) % 4
      invariant padded == data + Zeros(|padded| - |data|)
      decreases |data| + 4 - |padded|
    {
      padded := padded + [0];
    }
  }

  method PutWords(ns: seq<nat>) returns (data: Text)
    ensures data == AllWords(ns)
  {
    data := [];
    for i := 0 to |ns|
      invariant data == Words(ns, i)
    {
      data := data + U32(ns[i]);
    }
  }

  method PutMethods(owner: nat, names: seq<nat>) returns (data: Text)
    ensures data == MethodRecords(owner, names, |names|)
  {
    data := [];
    for i := 0 to |names|
      invariant data == MethodRecords(owner, names, i)
    {
      data := data + MethodRecord(owner, names[i]);
    }
  }

  method PutMap(items: seq<MapItem>) returns (data: Text)
    ensures data == MapRecords(items, |items|)
  {
    data := [];
    for i := 0 to |items|
      invariant data == MapRecords(items, i)
    {
      data := data + MapRecord(items[i]);
    }
  }

  /** The data section up to the map, with where its string items, type list, class data and map start. */
  method PutLists(p: Plan, dataOff: nat)
    returns (data: Text, offsets: seq<nat>, typeListOff: nat, classDataOff: nat, mapOff: nat)
    requires dataOff == DataOff(p)
    ensures data == PaddedLists(p) && offsets == StringOffsets(p)
    ensures typeListOff == TypeListOff(p) && classDataOff == ClassDataOff(p) && mapOff == MapOff(p)
  {
    data, offsets := PutStrings(p.strings, dataOff);
    data := Pad(data, dataOff);
    typeListOff := dataOff + |data|;
    data := data + TypeList(p.stringType);
    classDataOff := dataOff + |data|;
    var classData := PutClassData(|p.methods|);
    data := data + classData;
    data := Pad(data, dataOff);
    mapOff := dataOff + |data|;
  }

  method PutData(p: Plan, typeIdsOff: nat, protoIdsOff: nat, methodIdsOff: nat, classDefsOff: nat, dataOff: nat)
    returns (data: Text, offsets: seq<nat>, typeListOff: nat, classDataOff: nat, mapOff: nat)
    requires typeIdsOff == TypeIdsOff(p) && protoIdsOff == ProtoIdsOff(p) && methodIdsOff == MethodIdsOff(p)
    requires classDefsOff == ClassDefsOff(p) && dataOff == DataOff(p)
    ensures data == DataSection(p) && offsets == StringOffsets(p)
    ensures typeListOff == TypeListOff(p) && classDataOff == ClassDataOff(p) && mapOff == MapOff(p)
  {
    data, offsets, typeListOff, classDataOff, mapOff := PutLists(p, dataOff);
    var items := [
      MapItem(0x0000, 1, 0),
      MapItem(0x0001, |p.strings|, HEADER_SIZE),
      MapItem(0x0002, |p.types|, typeIdsOff),
      MapItem(0x0003, 1, protoIdsOff),
      MapItem(0x0005, |p.methods|, methodIdsOff),
      MapItem(0x0006, 1, classDefsOff),
      MapItem(0x2002, |p.strings|, dataOff),
      MapItem(0x1001, 1, typeListOff),
      MapItem(0x2000, 1, classDataOff),
      MapItem(0x1000, 1, mapOff)];
    assert items == MapItems(p);
    var records := PutMap(SortByOffset(items));
    data := data + U32(|items|) + records;
  }

  /** The sorted tables.  Ordering the types by their place among the strings is ordering them. */
  method PlanTables(descriptor: Text, names: seq<Text>) returns (p: Plan)
    ensures p == PlanOf(descriptor, names)
  {
    var strings := SortedKeys({descriptor, StringType(), ObjectType(), Shorty()} + set n | n in names);
    var types := SortedKeys({StringType(), descriptor, ObjectType()});
    SortedUnique(strings, SortedSeq({descriptor, StringType(), ObjectType(), Shorty()} + Elements(names)));
    SortedUnique(types, SortedSeq({StringType(), descriptor, ObjectType()}));
    SortedTablesCover(descriptor, names, strings, types);
    p := PlanFrom(descriptor, names, strings, types);
  }

  /** struct.pack raises on a number of more than 32 bits; the file size is packed too, and no other
      number is larger (PackedNumbersFit), so it alone decides. */
  method Assemble(p: Plan) returns (body: Parsed<Text>)
    ensures body == if FileSize(p) < U32_LIMIT then Ok(Body(p)) else Bad(ShortBuffer)
  {
    var typeIdsOff := HEADER_SIZE + 4 * |p.strings|;
    var protoIdsOff := typeIdsOff + 4 * |p.types|;
    var methodIdsOff := protoIdsOff + 12;
    var classDefsOff := methodIdsOff + 8 * |p.methods|;
    var dataOff := classDefsOff + 32;
    var data, offsets, typeListOff, classDataOff, mapOff :=
      PutData(p, typeIdsOff, protoIdsOff, methodIdsOff, classDefsOff, dataOff);
    var fileSize := dataOff + |data|;
    if fileSize >= U32_LIMIT { return Bad(ShortBuffer); }
    var header := PutWords([fileSize, HEADER_SIZE, 0x12345678, 0, 0, mapOff,
                            |p.strings|, HEADER_SIZE, |p.types|, typeIdsOff, 1, protoIdsOff, 0, 0,
                            |p.methods|, methodIdsOff, 1, classDefsOff, |data|, dataOff]);
    var ids := PutIds(p, offsets, typeListOff, classDataOff);
    body := Ok(header + ids + data);
  }

  method PutIds(p: Plan, offsets: seq<nat>, typeListOff: nat, classDataOff: nat) returns (ids: Text)
    requires offsets == StringOffsets(p) && typeListOff == TypeListOff(p) && classDataOff == ClassDataOff(p)
    ensures ids == Ids(p)
  {
    var stringIds := PutWords(offsets);
    var typeIds := PutWords(p.typeIdx);
    var protoIds := PutWords([p.shorty, p.stringType, typeListOff]);
    var methodIds := PutMethods(p.owner, p.methods);
    var classDef := PutWords([p.owner, 1, p.objectType, 0, NO_INDEX, 0, classDataOff, 0]);
    ids := stringIds + (typeIds + (protoIds + (methodIds + classDef)));
  }

  method BuildDex(descriptor: Text, names: seq<Text>, sha1: Text -> Signature, adler32: Text -> Checksum) returns (r: Parsed<Text>)
    ensures r == DexImage(descriptor, names, sha1, adler32)
  {
    var p := PlanTables(descriptor, names);
    var body :- Assemble(p);
    var signature := sha1(body);
    r := Ok(Magic() + U32(adler32(signature + body)) + signature + body);
  }
}
