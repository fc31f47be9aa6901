/** Any dex file, laid out as its format says, and what the scanner of
    scripts/release/android-keystore-verify.py says of it. */
module DexFile {
  import opened Bytes
  import opened Leb128
  import opened Results
  import opened Dex

  /** Numbers are indices into the tables before: a type's into the strings, a method's owner into the types. */
  datatype MethodId = MethodId(owner: nat, name: nat)
  datatype ClassDef = ClassDef(name: nat, classData: nat)
  datatype File = File(stringIds: nat, strings: seq<Text>, typeIds: nat, types: seq<nat>,
                       methodIds: nat, methods: seq<MethodId>, classDefs: nat, classes: seq<ClassDef>)

  datatype Field = Field(diff: nat, flags: nat)
  datatype Defined = Defined(diff: nat, flags: nat, code: nat)
  datatype ClassData = ClassData(staticFields: seq<Field>, instanceFields: seq<Field>,
                                 directMethods: seq<Defined>, virtualMethods: seq<Defined>)

  // ------------------------------------------------------------- layout

  ghost predicate HalfAt(data: Text, off: nat, n: nat) {
    off + 2 <= |data| && n == data[off] as int + 0x100 * data[off + 1] as int
  }

  ghost predicate WordAt(data: Text, off: nat, n: nat) {
    && off + 4 <= |data|
    && n == data[off] as int + 0x100 * data[off + 1] as int + 0x1_0000 * data[off + 2] as int + 0x100_0000 * data[off + 3] as int
  }

  /** A string item: its length, whatever it says, its bytes and a NUL. */
  ghost predicate StringAtWord(data: Text, at: nat, s: Text) {
    exists off, len :: WordAt(data, at, off) && len < 0x400_0000_0000 && Holds(data, off, Uvarint(len) + (s + [0])) && 0 !in s
  }

  ghost predicate HeaderStands(data: Text, f: File) {
    && |data| >= 0x70 && data[..4] == [0x64, 0x65, 0x78, 0x0a]
    && WordAt(data, 0x38, |f.strings|) && WordAt(data, 0x3c, f.stringIds)
    && WordAt(data, 0x40, |f.types|) && WordAt(data, 0x44, f.typeIds)
    && WordAt(data, 0x58, |f.methods|) && WordAt(data, 0x5c, f.methodIds)
    && WordAt(data, 0x60, |f.classes|) && WordAt(data, 0x64, f.classDefs)
  }

  ghost predicate StringsStand(data: Text, f: File) {
    forall i :: 0 <= i < |f.strings| ==> StringAtWord(data, f.stringIds + 4 * i, f.strings[i])
  }

  ghost predicate TypesStand(data: Text, f: File) {
    forall i :: 0 <= i < |f.types| ==> f.types[i] < |f.strings| && WordAt(data, f.typeIds + 4 * i, f.types[i])
  }

  ghost predicate MethodsStand(data: Text, f: File) {
    forall i :: 0 <= i < |f.methods| ==>
      && f.methods[i].owner < |f.types| && f.methods[i].name < |f.strings|
      && HalfAt(data, f.methodIds + 8 * i, f.methods[i].owner) && WordAt(data, f.methodIds + 8 * i + 4, f.methods[i].name)
  }

  ghost predicate ClassesStand(data: Text, f: File) {
    forall i :: 0 <= i < |f.classes| ==>
      && f.classes[i].name < |f.types| && f.classDefs + 32 * i + 32 <= |data|
      && WordAt(data, f.classDefs + 32 * i, f.classes[i].name) && WordAt(data, f.classDefs + 32 * i + 24, f.classes[i].classData)
  }

  ghost predicate TablesStand(data: Text, f: File) {
    StringsStand(data, f) && TypesStand(data, f) && MethodsStand(data, f) && ClassesStand(data, f)
  }

  ghost predicate Stands(data: Text, f: File) { HeaderStands(data, f) && TablesStand(data, f) }

  ghost function Fields(fs: seq<Field>): Text {
    if fs == [] then [] else Uvarint(fs[0].diff) + (Uvarint(fs[0].flags) + Fields(fs[1..]))
  }

  ghost function Methods(ms: seq<Defined>): Text {
    if ms == [] then [] else Uvarint(ms[0].diff) + (Uvarint(ms[0].flags) + (Uvarint(ms[0].code) + Methods(ms[1..])))
  }

  ghost function ClassDataItem(cd: ClassData): Text {
    AfterCounts(|cd.staticFields|, |cd.instanceFields|, |cd.directMethods|, |cd.virtualMethods|,
                Fields(cd.staticFields) + (Fields(cd.instanceFields) + (Methods(cd.directMethods) + Methods(cd.virtualMethods))))
  }

  ghost function AfterCounts(a: nat, b: nat, c: nat, d: nat, rest: Text): Text {
    Uvarint(a) + (Uvarint(b) + (Uvarint(c) + (Uvarint(d) + rest)))
  }

  ghost predicate FieldsFit(fs: seq<Field>) {
    forall i :: 0 <= i < |fs| ==> fs[i].diff < 0x400_0000_0000 && fs[i].flags < 0x400_0000_0000
  }

  ghost predicate MethodsFit(ms: seq<Defined>) {
    forall i :: 0 <= i < |ms| ==> ms[i].diff < 0x400_0000_0000 && ms[i].flags < 0x400_0000_0000 && ms[i].code < 0x400_0000_0000
  }

  ghost predicate ClassDataStands(data: Text, off: nat, cd: ClassData) {
    && |cd.staticFields| < 0x400_0000_0000 && |cd.instanceFields| < 0x400_0000_0000
    && |cd.directMethods| < 0x400_0000_0000 && |cd.virtualMethods| < 0x400_0000_0000
    && FieldsFit(cd.staticFields) && FieldsFit(cd.instanceFields) && MethodsFit(cd.directMethods) && MethodsFit(cd.virtualMethods)
    && Holds(data, off, ClassDataItem(cd))
  }

  // ---------------------------------------------------------- class data

  lemma NumberRead(data: Text, off: nat, n: nat, rest: Text) returns (next: nat)
    requires Holds(data, off, Uvarint(n) + rest) && n < 0x400_0000_0000
    ensures Uleb(data, off, 0) == Ok((n, next)) && Holds(data, next, rest)
  {
    next := off + |Uvarint(n)|;
    HoldsParts(data, off, Uvarint(n), rest);
    DecodeEncoded(data, off, n, 0);
    CapacityIs42Bits();
  }

  lemma FieldsUnfold(fs: seq<Field>, rest: Text)
    requires fs != []
    ensures Fields(fs) + rest == Uvarint(fs[0].diff) + (Uvarint(fs[0].flags) + (Fields(fs[1..]) + rest))
  {
    Regroup(Uvarint(fs[0].diff), Uvarint(fs[0].flags), Fields(fs[1..]), rest);
  }

  lemma Regroup(a: Text, b: Text, c: Text, d: Text)
    ensures (a + (b + c)) + d == a + (b + (c + d))
  {
  }

  lemma FieldTurn(data: Text, off: nat, left: nat, diff: nat, off1: nat, flags: nat, off2: nat)
    requires Uleb(data, off, 0) == Ok((diff, off1)) && Uleb(data, off1, 0) == Ok((flags, off2)) && left > 0
    ensures SkipFields(data, off, left) == SkipFields(data, off2, left - 1)
  {
  }

  lemma FieldHeld(data: Text, off: nat, fs: seq<Field>, rest: Text) returns (off1: nat, off2: nat)
    requires fs != [] && Holds(data, off, Fields(fs) + rest) && FieldsFit(fs)
    ensures Uleb(data, off, 0) == Ok((fs[0].diff, off1)) && Uleb(data, off1, 0) == Ok((fs[0].flags, off2))
    ensures Holds(data, off2, Fields(fs[1..]) + rest)
  {
    FieldsUnfold(fs, rest);
    off1 := NumberRead(data, off, fs[0].diff, Uvarint(fs[0].flags) + (Fields(fs[1..]) + rest));
    off2 := NumberRead(data, off1, fs[0].flags, Fields(fs[1..]) + rest);
  }

  lemma {:induction false} FieldsSkipped(data: Text, off: nat, fs: seq<Field>, more: nat, rest: Text) returns (next: nat)
    requires Holds(data, off, Fields(fs) + rest) && FieldsFit(fs)
    ensures SkipFields(data, off, |fs| + more) == SkipFields(data, next, more) && Holds(data, next, rest)
    decreases |fs|
  {
    if fs == [] {
      next := off;
      assert Fields(fs) + rest == rest;
    } else {
      var off1, off2 := FieldHeld(data, off, fs, rest);
      FieldTurn(data, off, |fs| + more, fs[0].diff, off1, fs[0].flags, off2);
      next := FieldsSkipped(data, off2, fs[1..], more, rest);
    }
  }

  /** The sum of the first n index differences. */
  function Sum(ms: seq<Defined>, n: nat): nat
    requires n <= |ms|
  {
    if n == 0 then 0 else Sum(ms, n - 1) + ms[n - 1].diff
  }

  /** Each method under the sum of the differences up to its own, from `idx` on. */
  ghost function NumberedFrom(ms: seq<Defined>, idx: nat): (r: seq<(nat, nat)>)
    ensures |r| == |ms|
  {
    seq(|ms|, k requires 0 <= k < |ms| => (idx + Sum(ms, k + 1), ms[k].flags))
  }

  lemma {:induction false} SumOfRest(ms: seq<Defined>, n: nat)
    requires n < |ms|
    ensures Sum(ms, n + 1) == ms[0].diff + Sum(ms[1..], n)
  {
    if n > 0 { SumOfRest(ms, n - 1); }
  }

  lemma NumberedUnfolds(ms: seq<Defined>, idx: nat)
    requires ms != []
    ensures NumberedFrom(ms, idx) == [(idx + ms[0].diff, ms[0].flags)] + NumberedFrom(ms[1..], idx + ms[0].diff)
  {
    forall k | 0 <= k < |ms|
      ensures NumberedFrom(ms, idx)[k] == ([(idx + ms[0].diff, ms[0].flags)] + NumberedFrom(ms[1..], idx + ms[0].diff))[k]
    {
      SumOfRest(ms, k);
    }
  }

  lemma MethodTurn(data: Text, off: nat, left: nat, idx: nat, read: seq<(nat, nat)>, m: Defined, off1: nat, off2: nat, off3: nat)
    requires Uleb(data, off, 0) == Ok((m.diff, off1)) && Uleb(data, off1, 0) == Ok((m.flags, off2))
    requires Uleb(data, off2, 0) == Ok((m.code, off3)) && left > 0
    ensures DefinedMethods(data, off, left, idx, read)
            == DefinedMethods(data, off3, left - 1, idx + m.diff, read + [(idx + m.diff, m.flags)])
  {
  }

  lemma MethodHeld(data: Text, off: nat, ms: seq<Defined>) returns (off1: nat, off2: nat, off3: nat)
    requires ms != [] && Holds(data, off, Methods(ms)) && MethodsFit(ms)
    ensures Uleb(data, off, 0) == Ok((ms[0].diff, off1)) && Uleb(data, off1, 0) == Ok((ms[0].flags, off2))
    ensures Uleb(data, off2, 0) == Ok((ms[0].code, off3)) && Holds(data, off3, Methods(ms[1..]))
  {
    var m, tail := ms[0], Methods(ms[1..]);
    off1 := NumberRead(data, off, m.diff, Uvarint(m.flags) + (Uvarint(m.code) + tail));
    off2 := NumberRead(data, off1, m.flags, Uvarint(m.code) + tail);
    off3 := NumberRead(data, off2, m.code, tail);
  }

  lemma {:induction false} MethodsRead(data: Text, off: nat, ms: seq<Defined>, idx: nat, read: seq<(nat, nat)>)
    requires Holds(data, off, Methods(ms)) && MethodsFit(ms)
    ensures DefinedMethods(data, off, |ms|, idx, read) == Ok(read + NumberedFrom(ms, idx))
    decreases |ms|
  {
    if ms == [] {
      assert read + NumberedFrom(ms, idx) == read;
    } else {
      var off1, off2, off3 := MethodHeld(data, off, ms);
      var first := (idx + ms[0].diff, ms[0].flags);
      MethodTurn(data, off, |ms|, idx, read, ms[0], off1, off2, off3);
      MethodsRead(data, off3, ms[1..], first.0, read + [first]);
      NumberedUnfolds(ms, idx);
      OneByOne(read, first, NumberedFrom(ms[1..], first.0));
    }
  }

  lemma OneByOne<T>(a: seq<T>, x: T, b: seq<T>)
    ensures a + ([x] + b) == (a + [x]) + b
  {
  }

  lemma RegroupFour(a: Text, b: Text, c: Text, d: Text, e: Text)
    ensures (a + (b + (c + d))) + e == a + (b + (c + (d + e)))
  {
  }

  lemma {:induction false} MethodsAppend(a: seq<Defined>, b: seq<Defined>)
    ensures Methods(a + b) == Methods(a) + Methods(b)
  {
    if a == [] {
      assert a + b == b;
    } else {
      MethodsAppend(a[1..], b);
      assert (a + b)[1..] == a[1..] + b;
      RegroupFour(Uvarint(a[0].diff), Uvarint(a[0].flags), Uvarint(a[0].code), Methods(a[1..]), Methods(b));
    }
  }

  function All(cd: ClassData): seq<Defined> { cd.directMethods + cd.virtualMethods }

  lemma CountsRead(data: Text, off: nat, a: nat, off1: nat, b: nat, off2: nat, c: nat, off3: nat, d: nat, off4: nat)
    requires Uleb(data, off, 0) == Ok((a, off1)) && Uleb(data, off1, 0) == Ok((b, off2))
    requires Uleb(data, off2, 0) == Ok((c, off3)) && Uleb(data, off3, 0) == Ok((d, off4))
    ensures Counts(data, off) == Ok((a + b, c + d, off4))
  {
    TwoCountsRead(data, off, a, off1, b, off2);
    TwoCountsRead(data, off2, c, off3, d, off4);
    BothCountsRead(data, off, a + b, off2, c + d, off4);
  }

  lemma BothCountsRead(data: Text, off: nat, fields: nat, middle: nat, methods: nat, next: nat)
    requires TwoCounts(data, off) == Ok((fields, middle)) && TwoCounts(data, middle) == Ok((methods, next))
    ensures Counts(data, off) == Ok((fields, methods, next))
  {
  }

  lemma MethodsFollow(data: Text, off: nat, fields: nat, methods: nat, next: nat, first: nat, read: seq<(nat, nat)>)
    requires Counts(data, off) == Ok((fields, methods, next)) && SkipFields(data, next, fields) == Ok(first)
    requires DefinedMethods(data, first, methods, 0, []) == Ok(read)
    ensures ClassDataMethods(data, off) == Ok(read)
  {
  }

  lemma TwoCountsRead(data: Text, off: nat, a: nat, off1: nat, b: nat, off2: nat)
    requires Uleb(data, off, 0) == Ok((a, off1)) && Uleb(data, off1, 0) == Ok((b, off2))
    ensures TwoCounts(data, off) == Ok((a + b, off2))
  {
  }

  lemma CountsHeld(data: Text, off: nat, a: nat, b: nat, c: nat, d: nat, rest: Text) returns (next: nat)
    requires a < 0x400_0000_0000 && b < 0x400_0000_0000 && c < 0x400_0000_0000 && d < 0x400_0000_0000
    requires Holds(data, off, AfterCounts(a, b, c, d, rest))
    ensures Counts(data, off) == Ok((a + b, c + d, next)) && Holds(data, next, rest)
  {
    var off1 := NumberRead(data, off, a, Uvarint(b) + (Uvarint(c) + (Uvarint(d) + rest)));
    var off2 := NumberRead(data, off1, b, Uvarint(c) + (Uvarint(d) + rest));
    var off3 := NumberRead(data, off2, c, Uvarint(d) + rest);
    next := NumberRead(data, off3, d, rest);
    CountsRead(data, off, a, off1, b, off2, c, off3, d, next);
  }

  lemma AllFieldsSkipped(data: Text, off: nat, cd: ClassData, rest: Text) returns (next: nat)
    requires FieldsFit(cd.staticFields) && FieldsFit(cd.instanceFields)
    requires Holds(data, off, Fields(cd.staticFields) + (Fields(cd.instanceFields) + rest))
    ensures SkipFields(data, off, |cd.staticFields| + |cd.instanceFields|) == Ok(next) && Holds(data, next, rest)
  {
    var middle := FieldsSkipped(data, off, cd.staticFields, |cd.instanceFields|, Fields(cd.instanceFields) + rest);
    next := FieldsSkipped(data, middle, cd.instanceFields, 0, rest);
  }

  lemma CountsAhead(data: Text, off: nat, cd: ClassData) returns (next: nat)
    requires ClassDataStands(data, off, cd)
    ensures Counts(data, off) == Ok((|cd.staticFields| + |cd.instanceFields|, |All(cd)|, next))
    ensures Holds(data, next, Fields(cd.staticFields) + (Fields(cd.instanceFields) + Methods(All(cd))))
  {
    MethodsAppend(cd.directMethods, cd.virtualMethods);
    next := CountsHeld(data, off, |cd.staticFields|, |cd.instanceFields|, |cd.directMethods|, |cd.virtualMethods|,
                       Fields(cd.staticFields) + (Fields(cd.instanceFields) + (Methods(cd.directMethods) + Methods(cd.virtualMethods))));
  }

  lemma NothingBefore<T>(s: seq<T>)
    ensures [] + s == s
  {
  }

  /** The class data of any class: the fields are skipped, and the methods, the direct ones first, come with
      their flags under the sums of the index differences. */
  lemma ClassDataRead(data: Text, off: nat, cd: ClassData)
    requires ClassDataStands(data, off, cd)
    ensures ClassDataMethods(data, off) == Ok(NumberedFrom(All(cd), 0))
  {
    var next := CountsAhead(data, off, cd);
    var first := AllFieldsSkipped(data, next, cd, Methods(All(cd)));
    MethodsRead(data, first, All(cd), 0, []);
    NothingBefore(NumberedFrom(All(cd), 0));
    MethodsFollow(data, off, |cd.staticFields| + |cd.instanceFields|, |All(cd)|, next, first, NumberedFrom(All(cd), 0));
  }

  // -------------------------------------------------------------- tables

  lemma WordIsRead(data: Text, off: nat, n: nat)
    requires WordAt(data, off, n)
    ensures ReadU32(data, off) == Ok(n) && Word(data, off) == n
  {
  }

  lemma HalfIsRead(data: Text, off: nat, n: nat)
    requires HalfAt(data, off, n)
    ensures ReadU16(data, off) == Ok(n)
  {
  }

  lemma TakeOneMore<T>(s: seq<T>, i: nat)
    requires i < |s|
    ensures s[..i + 1] == s[..i] + [s[i]]
  {
  }

  lemma CstringIsRead(data: Text, off: nat, s: Text)
    requires Holds(data, off, s + [0]) && 0 !in s
    ensures Cstr(data, off) == Ok(s)
  {
    forall i | 0 <= i <= |s| ensures data[off + i] == (s + [0])[i] {
      assert data[off..off + |s| + 1][i] == data[off + i];
    }
    assert data[off + |s|] == 0;
    assert forall i :: off <= i < off + |s| ==> data[i] == s[i - off];
    assert data[off..off + |s|] == s;
  }

  lemma StringIsRead(data: Text, f: File, i: nat)
    requires TablesStand(data, f) && i < |f.strings|
    ensures StringAt(data, f.stringIds, i) == Ok(f.strings[i])
  {
    var s := f.strings[i];
    var off, len :| WordAt(data, f.stringIds + 4 * i, off) && len < 0x400_0000_0000 && Holds(data, off, Uvarint(len) + (s + [0])) && 0 !in s;
    WordIsRead(data, f.stringIds + 4 * i, off);
    var pos := NumberRead(data, off, len, s + [0]);
    CstringIsRead(data, pos, s);
  }

  lemma {:induction false} StringsRead(data: Text, f: File, i: nat)
    requires TablesStand(data, f) && i <= |f.strings|
    ensures StringTable(data, f.stringIds, |f.strings|, i, f.strings[..i]) == Ok(f.strings)
    decreases |f.strings| - i
  {
    if i < |f.strings| {
      StringIsRead(data, f, i);
      StringsRead(data, f, i + 1);
      TakeOneMore(f.strings, i);
    } else {
      assert f.strings[..i] == f.strings;
    }
  }

  /** The names of the types, through the table of strings. */
  ghost function TypeNames(f: File): (names: seq<Text>)
    requires forall i :: 0 <= i < |f.types| ==> f.types[i] < |f.strings|
  {
    seq(|f.types|, i requires 0 <= i < |f.types| => f.strings[f.types[i]])
  }

  lemma {:induction false} TypesRead(data: Text, f: File, i: nat)
    requires TablesStand(data, f) && i <= |f.types|
    ensures TypeTable(data, f.typeIds, f.strings, |f.types|, i, TypeNames(f)[..i]) == Ok(TypeNames(f))
    decreases |f.types| - i
  {
    var names := TypeNames(f);
    if i < |f.types| {
      WordIsRead(data, f.typeIds + 4 * i, f.types[i]);
      TypesRead(data, f, i + 1);
      TakeOneMore(names, i);
    } else {
      assert names[..i] == names;
    }
  }

  ghost predicate Indexed(f: File) {
    && (forall i :: 0 <= i < |f.types| ==> f.types[i] < |f.strings|)
    && (forall i :: 0 <= i < |f.methods| ==> f.methods[i].owner < |f.types| && f.methods[i].name < |f.strings|)
    && (forall i :: 0 <= i < |f.classes| ==> f.classes[i].name < |f.types|)
  }

  ghost function MethodsOf(f: File): (ms: seq<Method>)
    requires Indexed(f)
  {
    seq(|f.methods|, i requires 0 <= i < |f.methods| =>
      Method(f.strings[f.types[f.methods[i].owner]], f.strings[f.methods[i].name]))
  }

  lemma MethodAtRecord(data: Text, table: nat, strings: seq<Text>, types: seq<Text>, k: nat, owner: nat, name: nat)
    requires ReadU16(data, table + 8 * k) == Ok(owner) && ReadU32(data, table + 8 * k + 4) == Ok(name)
    requires owner < |types| && name < |strings|
    ensures MethodAt(data, table, strings, types, k) == Ok(Method(types[owner], strings[name]))
  {
  }

  lemma MethodIsRead(data: Text, f: File, i: nat)
    requires TablesStand(data, f) && i < |f.methods|
    ensures MethodAt(data, f.methodIds, f.strings, TypeNames(f), i) == Ok(MethodsOf(f)[i])
  {
    var m := f.methods[i];
    WordIsRead(data, f.methodIds + 8 * i + 4, m.name);
    HalfIsRead(data, f.methodIds + 8 * i, m.owner);
    MethodAtRecord(data, f.methodIds, f.strings, TypeNames(f), i, m.owner, m.name);
  }

  lemma {:induction false} MethodIdsRead(data: Text, f: File, i: nat)
    requires Indexed(f) && i <= |f.methods|
    requires forall k :: 0 <= k < |f.methods| ==> MethodAt(data, f.methodIds, f.strings, TypeNames(f), k) == Ok(MethodsOf(f)[k])
    ensures MethodTable(data, f.methodIds, f.strings, TypeNames(f), |f.methods|, i, MethodsOf(f)[..i]) == Ok(MethodsOf(f))
    decreases |f.methods| - i
  {
    var methods := MethodsOf(f);
    if i < |f.methods| {
      MethodIdsRead(data, f, i + 1);
      TakeOneMore(methods, i);
    } else {
      assert methods[..i] == methods;
    }
  }

  predicate Names(f: File, i: nat, descriptor: Text)
    requires Indexed(f) && i < |f.classes|
  {
    f.strings[f.types[f.classes[i].name]] == descriptor
  }

  /** The last of the first n definitions of the class, if there is one, is what the map holds. */
  ghost predicate HoldsLast(f: File, n: nat, read: map<Text, nat>)
    requires Indexed(f) && n <= |f.classes|
  {
    forall d :: if d in read then exists i: nat :: IsLast(f, n, d, i) && read[d] == f.classes[i].classData
                else forall i :: 0 <= i < n ==> !Names(f, i, d)
  }

  ghost predicate IsLast(f: File, n: nat, descriptor: Text, i: nat)
    requires Indexed(f) && n <= |f.classes|
  {
    i < n && Names(f, i, descriptor) && forall j :: i < j < n ==> !Names(f, j, descriptor)
  }

  lemma OneMoreClass(f: File, n: nat, read: map<Text, nat>)
    requires Indexed(f) && n < |f.classes| && HoldsLast(f, n, read)
    ensures HoldsLast(f, n + 1, read[f.strings[f.types[f.classes[n].name]] := f.classes[n].classData])
  {
    var name := f.strings[f.types[f.classes[n].name]];
    var more := read[name := f.classes[n].classData];
    forall d ensures if d in more then exists i: nat :: IsLast(f, n + 1, d, i) && more[d] == f.classes[i].classData
                     else forall i :: 0 <= i < n + 1 ==> !Names(f, i, d)
    {
      if d == name {
        assert IsLast(f, n + 1, d, n);
      } else if d in read {
        var i: nat :| IsLast(f, n, d, i) && read[d] == f.classes[i].classData;
        assert IsLast(f, n + 1, d, i);
      }
    }
  }

  lemma {:induction false} ClassesRead(data: Text, f: File, i: nat, read: map<Text, nat>) returns (classes: map<Text, nat>)
    requires Indexed(f) && i <= |f.classes| && HoldsLast(f, i, read)
    requires forall k :: 0 <= k < |f.classes| ==>
               ClassAt(data, f.classDefs, TypeNames(f), k) == Ok((TypeNames(f)[f.classes[k].name], f.classes[k].classData))
    ensures ClassTable(data, f.classDefs, TypeNames(f), |f.classes|, i, read) == Ok(classes)
    ensures HoldsLast(f, |f.classes|, classes)
    decreases |f.classes| - i
  {
    if i < |f.classes| {
      ClassTurn(data, f, i, read);
      OneMoreClass(f, i, read);
      classes := ClassesRead(data, f, i + 1, read[TypeNames(f)[f.classes[i].name] := f.classes[i].classData]);
    } else {
      classes := read;
    }
  }

  lemma AllClassesRead(data: Text, f: File) returns (classes: map<Text, nat>)
    requires TablesStand(data, f)
    ensures ClassTable(data, f.classDefs, TypeNames(f), |f.classes|, 0, map[]) == Ok(classes)
    ensures HoldsLast(f, |f.classes|, classes)
  {
    forall k | 0 <= k < |f.classes|
      ensures ClassAt(data, f.classDefs, TypeNames(f), k) == Ok((TypeNames(f)[f.classes[k].name], f.classes[k].classData))
    {
      ClassIsRead(data, f, k);
    }
    classes := ClassesRead(data, f, 0, map[]);
  }

  lemma ClassTurn(data: Text, f: File, i: nat, read: map<Text, nat>)
    requires Indexed(f) && i < |f.classes|
    requires ClassAt(data, f.classDefs, TypeNames(f), i) == Ok((TypeNames(f)[f.classes[i].name], f.classes[i].classData))
    ensures ClassTable(data, f.classDefs, TypeNames(f), |f.classes|, i, read)
            == ClassTable(data, f.classDefs, TypeNames(f), |f.classes|, i + 1, read[TypeNames(f)[f.classes[i].name] := f.classes[i].classData])
  {
  }

  lemma ClassIsRead(data: Text, f: File, i: nat)
    requires TablesStand(data, f) && i < |f.classes|
    ensures ClassAt(data, f.classDefs, TypeNames(f), i) == Ok((TypeNames(f)[f.classes[i].name], f.classes[i].classData))
  {
    WordIsRead(data, f.classDefs + 32 * i, f.classes[i].name);
    WordIsRead(data, f.classDefs + 32 * i + 24, f.classes[i].classData);
  }

  // ---------------------------------------------------------------- scan

  /** Bit 3 is set. */
  ghost predicate StaticBit(flags: nat) { flags % 16 >= 8 }

  lemma StaticIsBitThree(flags: nat)
    ensures IsStatic(flags) <==> StaticBit(flags)
  {
  }

  /** Method i belongs to the class and has this name. */
  ghost predicate OwnMethod(f: File, descriptor: Text, i: nat, name: Text)
    requires Indexed(f)
  {
    i < |f.methods| && f.strings[f.types[f.methods[i].owner]] == descriptor && f.strings[f.methods[i].name] == name
  }

  /** The report on a class: the names of all its own methods, and of those the class data lists with bit 3 set. */
  ghost predicate IsReport(f: File, descriptor: Text, listed: seq<Defined>, info: Info)
    requires Indexed(f)
  {
    && (forall name :: name in info.any <==> HasMethod(f, descriptor, name))
    && (forall name :: name in info.statics <==> ListsStatic(f, descriptor, listed, name))
  }

  ghost predicate HasMethod(f: File, descriptor: Text, name: Text)
    requires Indexed(f)
  {
    exists i: nat :: OwnMethod(f, descriptor, i, name)
  }

  ghost predicate ListsStatic(f: File, descriptor: Text, listed: seq<Defined>, name: Text)
    requires Indexed(f)
  {
    exists k: nat :: k < |listed| && StaticBit(listed[k].flags) && OwnMethod(f, descriptor, Sum(listed, k + 1), name)
  }

  /** Of a class that is not defined the scanner says nothing. */
  lemma ScanOfAbsentClass(data: Text, f: File, descriptor: Text)
    requires Stands(data, f) && forall i :: 0 <= i < |f.classes| ==> !Names(f, i, descriptor)
    ensures ScanDex(data, descriptor) == Ok(None)
  {
    var classes := TablesAreRead(data, f, descriptor);
  }

  /** A class whose last definition has no class data: its methods, and none of them static. */
  lemma ScanOfEmptyClass(data: Text, f: File, descriptor: Text, i: nat) returns (info: Info)
    requires Stands(data, f) && IsLast(f, |f.classes|, descriptor, i) && f.classes[i].classData == 0
    ensures ScanDex(data, descriptor) == Ok(Some(info)) && IsReport(f, descriptor, [], info) && !info.hasClassData
  {
    var classes := TablesAreRead(data, f, descriptor);
    LastIsUnique(f, classes, descriptor, i);
    info := Info(Owned(MethodsOf(f), descriptor), {}, false);
    OwnedAreOwn(f, descriptor);
  }

  /** Any class with class data, whatever fields, methods and flags that lists. */
  lemma ScanOfClass(data: Text, f: File, descriptor: Text, i: nat, cd: ClassData) returns (info: Info)
    requires Stands(data, f) && IsLast(f, |f.classes|, descriptor, i) && f.classes[i].classData != 0
    requires ClassDataStands(data, f.classes[i].classData, cd)
    ensures ScanDex(data, descriptor) == Ok(Some(info)) && IsReport(f, descriptor, All(cd), info) && info.hasClassData
  {
    var classes := TablesAreRead(data, f, descriptor);
    LastIsUnique(f, classes, descriptor, i);
    ClassDataRead(data, f.classes[i].classData, cd);
    info := Info(Owned(MethodsOf(f), descriptor), StaticNames(MethodsOf(f), descriptor, NumberedFrom(All(cd), 0)), true);
    OwnedAreOwn(f, descriptor);
    forall name ensures name in info.statics <==> ListsStatic(f, descriptor, All(cd), name) {
      StaticsAreListed(f, descriptor, All(cd), name);
    }
  }

  lemma TablesAreRead(data: Text, f: File, descriptor: Text) returns (classes: map<Text, nat>)
    requires Stands(data, f)
    ensures HoldsLast(f, |f.classes|, classes)
    ensures ScanDex(data, descriptor) ==
              if descriptor !in classes then Ok(None)
              else if classes[descriptor] == 0 then Ok(Some(Info(Owned(MethodsOf(f), descriptor), {}, false)))
              else ScanClass(data, MethodsOf(f), descriptor, classes[descriptor])
  {
    StringsRead(data, f, 0);
    TypesRead(data, f, 0);
    forall k | 0 <= k < |f.methods| ensures MethodAt(data, f.methodIds, f.strings, TypeNames(f), k) == Ok(MethodsOf(f)[k]) {
      MethodIsRead(data, f, k);
    }
    MethodIdsRead(data, f, 0);
    classes := AllClassesRead(data, f);
    HeaderIsRead(data, f);
  }

  lemma HeaderIsRead(data: Text, f: File)
    requires HeaderStands(data, f)
    ensures LooksLikeDex(data)
    ensures Word(data, 0x38) == |f.strings| && Word(data, 0x3c) == f.stringIds
    ensures Word(data, 0x40) == |f.types| && Word(data, 0x44) == f.typeIds
    ensures Word(data, 0x58) == |f.methods| && Word(data, 0x5c) == f.methodIds
    ensures Word(data, 0x60) == |f.classes| && Word(data, 0x64) == f.classDefs
  {
    assert Ascii("dex\n") == [0x64, 0x65, 0x78, 0x0a];
  }

  lemma LastIsUnique(f: File, classes: map<Text, nat>, descriptor: Text, i: nat)
    requires Indexed(f) && HoldsLast(f, |f.classes|, classes) && IsLast(f, |f.classes|, descriptor, i)
    ensures descriptor in classes && classes[descriptor] == f.classes[i].classData
  {
    assert Names(f, i, descriptor);
    var j: nat :| IsLast(f, |f.classes|, descriptor, j) && classes[descriptor] == f.classes[j].classData;
    assert i == j;
  }

  lemma OwnedAreOwn(f: File, descriptor: Text)
    requires Indexed(f)
    ensures forall name :: name in Owned(MethodsOf(f), descriptor) <==> HasMethod(f, descriptor, name)
  {
    var methods := MethodsOf(f);
    forall name ensures name in Owned(methods, descriptor) <==> HasMethod(f, descriptor, name) {
      if HasMethod(f, descriptor, name) {
        var i: nat :| OwnMethod(f, descriptor, i, name);
        assert methods[i] == Method(descriptor, name);
      }
      if name in Owned(methods, descriptor) {
        var i :| 0 <= i < |methods| && methods[i].owner == descriptor && methods[i].name == name;
        assert OwnMethod(f, descriptor, i, name);
      }
    }
  }

  lemma StaticsAreListed(f: File, descriptor: Text, listed: seq<Defined>, name: Text)
    requires Indexed(f)
    ensures name in StaticNames(MethodsOf(f), descriptor, NumberedFrom(listed, 0)) <==> ListsStatic(f, descriptor, listed, name)
  {
    var methods, defined := MethodsOf(f), NumberedFrom(listed, 0);
    if ListsStatic(f, descriptor, listed, name) {
      var k: nat :| k < |listed| && StaticBit(listed[k].flags) && OwnMethod(f, descriptor, Sum(listed, k + 1), name);
      StaticIsBitThree(listed[k].flags);
      assert defined[k] == (Sum(listed, k + 1), listed[k].flags) && methods[defined[k].0] == Method(descriptor, name);
    }
    if name in StaticNames(methods, descriptor, defined) {
      var k: nat :| k < |defined| && defined[k].0 < |methods| && methods[defined[k].0].owner == descriptor
                    && IsStatic(defined[k].1) && methods[defined[k].0].name == name;
      StaticIsBitThree(listed[k].flags);
      assert OwnMethod(f, descriptor, Sum(listed, k + 1), name);
    }
  }

  // --------------------------------------------------- virtual methods

  /** The numbers of the methods listed with bit 3 set. */
  ghost function Statics(listed: seq<Defined>): set<nat> {
    set k | 0 <= k < |listed| && StaticBit(listed[k].flags) :: Sum(listed, k + 1)
  }

  /** As the format numbers them: each of the two lists starts over at zero. */
  ghost function FormatStatics(cd: ClassData): set<nat> { Statics(cd.directMethods) + Statics(cd.virtualMethods) }

  lemma {:induction false} SumGrows(listed: seq<Defined>, k: nat, n: nat)
    requires k <= n <= |listed|
    ensures Sum(listed, k) <= Sum(listed, n)
  {
    if k < n { SumGrows(listed, k, n - 1); }
  }

  lemma {:induction false} SumOfBoth(a: seq<Defined>, b: seq<Defined>, k: nat)
    requires k <= |a| + |b|
    ensures Sum(a + b, k) == if k <= |a| then Sum(a, k) else Sum(a, |a|) + Sum(b, k - |a|)
  {
    if k > 0 { SumOfBoth(a, b, k - 1); }
  }

  lemma StaticsOfBoth(cd: ClassData, x: nat)
    ensures x in Statics(All(cd)) <==>
              x in Statics(cd.directMethods) || (exists v :: v in Statics(cd.virtualMethods) && x == Total(cd) + v)
  {
    var a, b := cd.directMethods, cd.virtualMethods;
    if x in Statics(All(cd)) {
      var k :| 0 <= k < |All(cd)| && StaticBit(All(cd)[k].flags) && x == Sum(All(cd), k + 1);
      SumOfBoth(a, b, k + 1);
      if k >= |a| { assert b[k - |a|] == All(cd)[k] && Sum(b, k - |a| + 1) in Statics(b); }
    }
    if x in Statics(a) {
      var k :| 0 <= k < |a| && StaticBit(a[k].flags) && x == Sum(a, k + 1);
      SumOfBoth(a, b, k + 1);
      assert All(cd)[k] == a[k];
    }
    if v :| v in Statics(b) && x == Total(cd) + v {
      var k :| 0 <= k < |b| && StaticBit(b[k].flags) && v == Sum(b, k + 1);
      SumOfBoth(a, b, |a| + k + 1);
      assert All(cd)[|a| + k] == b[k];
    }
  }

  /** The number of the last direct method. */
  ghost function Total(cd: ClassData): nat { Sum(cd.directMethods, |cd.directMethods|) }

  lemma DirectStaticsAreSmall(cd: ClassData, x: nat)
    requires x in Statics(cd.directMethods)
    ensures x <= Total(cd)
  {
    var k :| 0 <= k < |cd.directMethods| && StaticBit(cd.directMethods[k].flags) && x == Sum(cd.directMethods, k + 1);
    SumGrows(cd.directMethods, k + 1, |cd.directMethods|);
  }

  lemma {:induction false} GreatestStatic(listed: seq<Defined>, n: nat) returns (v: nat)
    requires n <= |listed| && exists k :: 0 <= k < n && StaticBit(listed[k].flags)
    ensures v in Statics(listed) && forall k :: 0 <= k < n && StaticBit(listed[k].flags) ==> Sum(listed, k + 1) <= v
  {
    if StaticBit(listed[n - 1].flags) {
      v := Sum(listed, n);
      forall k | 0 <= k < n && StaticBit(listed[k].flags) ensures Sum(listed, k + 1) <= v {
        SumGrows(listed, k + 1, n);
      }
    } else {
      v := GreatestStatic(listed, n - 1);
    }
  }

  /** The scanner numbers the virtual methods on from the last direct one.  It finds the methods the format
      calls static exactly when no virtual method has bit 3 set, as the format asks, or the direct methods end at
      number 0, or the one virtual number is 0 and both that and the last direct number are static anyway. */
  lemma NumbersAgreeIff(cd: ClassData)
    ensures Statics(All(cd)) == FormatStatics(cd) <==>
              || Statics(cd.virtualMethods) == {}
              || Total(cd) == 0
              || (Statics(cd.virtualMethods) == {0} && 0 in Statics(cd.directMethods) && Total(cd) in Statics(cd.directMethods))
  {
    var direct, virtual, total := Statics(cd.directMethods), Statics(cd.virtualMethods), Total(cd);
    forall x ensures x in Statics(All(cd)) <==> x in direct || (exists v :: v in virtual && x == total + v) {
      StaticsOfBoth(cd, x);
    }
    if virtual == {} || total == 0 || (virtual == {0} && 0 in direct && total in direct) {
      assert forall x :: x in Statics(All(cd)) <==> x in FormatStatics(cd);
    } else if Statics(All(cd)) == FormatStatics(cd) {
      GreatestIsZero(cd);
    }
  }

  lemma GreatestIsZero(cd: ClassData)
    requires Statics(All(cd)) == FormatStatics(cd) && Statics(cd.virtualMethods) != {} && Total(cd) > 0
    ensures Statics(cd.virtualMethods) == {0} && 0 in Statics(cd.directMethods) && Total(cd) in Statics(cd.directMethods)
  {
    var virtual := cd.virtualMethods;
    var some :| some in Statics(virtual);
    var v := GreatestStatic(virtual, |virtual|);
    StaticsOfBoth(cd, Total(cd) + v);
    assert Total(cd) + v in FormatStatics(cd) && Total(cd) + v !in Statics(virtual);
    DirectStaticsAreSmall(cd, Total(cd) + v);
    assert forall x :: x in Statics(virtual) ==> x <= 0;
    StaticsOfBoth(cd, 0);
    assert 0 in FormatStatics(cd);
  }
}
