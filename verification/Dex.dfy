/** The DEX scanner of scripts/release/android-keystore-verify.py.  Strings are their UTF-8 bytes. */
module Dex {
  import opened Bytes
  import opened Leb128
  import opened Results

  const U32_LIMIT := 0x1_0000_0000
  const ACC_STATIC := 8

  /** What the scanner reports of the class it looks for. */
  datatype Info = Info(any: set<Text>, statics: set<Text>, hasClassData: bool)

  datatype Method = Method(owner: Text, name: Text)

  // ----------------------------------------------------------- primitives

  /** Little-endian halves and words; `n` must fit for the bytes to say anything. */
  function U16(n: nat): (t: Text)
    ensures |t| == 2
  {
    [n % 256, n / 256 % 256]
  }

  function U32(n: nat): (t: Text)
    ensures |t| == 4
  {
    [n % 256, n / 256 % 256, n / 0x1_0000 % 256, n / 0x100_0000 % 256]
  }

  function Word(data: Text, off: nat): nat
    requires off + 4 <= |data|
  {
    var b0: int, b1: int, b2: int, b3: int := data[off], data[off + 1], data[off + 2], data[off + 3];
    b0 + 0x100 * b1 + 0x1_0000 * b2 + 0x100_0000 * b3
  }

  function ReadU16(data: Text, off: nat): Parsed<nat> {
    if off + 2 > |data| then Bad(ShortBuffer)
    else
      var b0: int, b1: int := data[off], data[off + 1];
      Ok(b0 + 0x100 * b1)
  }

  function ReadU32(data: Text, off: nat): Parsed<nat> {
    if off + 4 > |data| then Bad(ShortBuffer) else Ok(Word(data, off))
  }

  function At<T>(list: seq<T>, i: nat): Parsed<T> {
    if i < |list| then Ok(list[i]) else Bad(BadIndex)
  }

  /** The first NUL at or after `off`. */
  function FindNul(data: Text, off: nat): (r: Option<nat>)
    ensures r.Some? ==> off <= r.value < |data| && data[r.value] == 0 && forall i :: off <= i < r.value ==> data[i] != 0
    ensures r.None? ==> forall i :: off <= i < |data| ==> data[i] != 0
    decreases |data| - off
  {
    if off >= |data| then None else if data[off] == 0 then Some(off) else FindNul(data, off + 1)
  }

  function Cstr(data: Text, off: nat): Parsed<Text> {
    var end := FindNul(data, off);
    if end.None? then Bad(UnterminatedString) else Ok(data[off..end.value])
  }

  // --------------------------------------------------------------- tables

  /** Entry `i` of the string table. */
  ghost function StringAt(data: Text, table: nat, i: nat): Parsed<Text> {
    var off :- ReadU32(data, table + 4 * i);
    var (_, pos) :- Uleb(data, off, 0);
    Cstr(data, pos)
  }

  function TypeAt(data: Text, table: nat, strings: seq<Text>, i: nat): Parsed<Text> {
    var descriptorIdx :- ReadU32(data, table + 4 * i);
    At(strings, descriptorIdx)
  }

  /** Two halves and a word, read together. */
  function MethodAt(data: Text, table: nat, strings: seq<Text>, types: seq<Text>, i: nat): Parsed<Method> {
    var classIdx :- ReadU16(data, table + 8 * i);
    var nameIdx :- ReadU32(data, table + 8 * i + 4);
    var owner :- At(types, classIdx);
    var name :- At(strings, nameIdx);
    Ok(Method(owner, name))
  }

  /** Class and class data offset of a class definition of eight words. */
  function ClassAt(data: Text, table: nat, types: seq<Text>, i: nat): Parsed<(Text, nat)> {
    var classIdx :- ReadU32(data, table + 32 * i);
    var classDataOff :- ReadU32(data, table + 32 * i + 24);
    var _ :- ReadU32(data, table + 32 * i + 28);
    var name :- At(types, classIdx);
    Ok((name, classDataOff))
  }

  /** The entries from `i` up to `n`, after those already read. */
  ghost function StringTable(data: Text, table: nat, n: nat, i: nat, read: seq<Text>): Parsed<seq<Text>>
    decreases n - i
  {
    if i >= n then Ok(read) else
      var s :- StringAt(data, table, i);
      StringTable(data, table, n, i + 1, read + [s])
  }

  ghost function TypeTable(data: Text, table: nat, strings: seq<Text>, n: nat, i: nat, read: seq<Text>): Parsed<seq<Text>>
    decreases n - i
  {
    if i >= n then Ok(read) else
      var t :- TypeAt(data, table, strings, i);
      TypeTable(data, table, strings, n, i + 1, read + [t])
  }

  ghost function MethodTable(data: Text, table: nat, strings: seq<Text>, types: seq<Text>, n: nat, i: nat, read: seq<Method>):
    Parsed<seq<Method>>
    decreases n - i
  {
    if i >= n then Ok(read) else
      var m :- MethodAt(data, table, strings, types, i);
      MethodTable(data, table, strings, types, n, i + 1, read + [m])
  }

  /** A class defined twice keeps its last class data. */
  ghost function ClassTable(data: Text, table: nat, types: seq<Text>, n: nat, i: nat, read: map<Text, nat>): Parsed<map<Text, nat>>
    decreases n - i
  {
    if i >= n then Ok(read) else
      var (name, off) :- ClassAt(data, table, types, i);
      ClassTable(data, table, types, n, i + 1, read[name := off])
  }

  /** Each field is an index difference and its access flags. */
  ghost function SkipFields(data: Text, off: nat, n: nat): Parsed<nat>
    decreases n
  {
    if n == 0 then Ok(off) else
      var (_, off1) :- Uleb(data, off, 0);
      var (_, off2) :- Uleb(data, off1, 0);
      SkipFields(data, off2, n - 1)
  }

  /** `n` more methods of a class, numbered from `idx` on by differences. */
  ghost function DefinedMethods(data: Text, off: nat, n: nat, idx: nat, read: seq<(nat, nat)>): Parsed<seq<(nat, nat)>>
    decreases n
  {
    if n == 0 then Ok(read) else
      var (diff, off1) :- Uleb(data, off, 0);
      var (flags, off2) :- Uleb(data, off1, 0);
      var (_, off3) :- Uleb(data, off2, 0);
      DefinedMethods(data, off3, n - 1, idx + diff, read + [(idx + diff, flags)])
  }

  /** Four counts, and where they end. */
  ghost function Counts(data: Text, off: nat): Parsed<(nat, nat, nat)> {
    var (fields, off1) :- TwoCounts(data, off);
    var (methods, off2) :- TwoCounts(data, off1);
    Ok((fields, methods, off2))
  }

  /** The sum of two counts, and where they end. */
  ghost function TwoCounts(data: Text, off: nat): Parsed<(nat, nat)> {
    var (a, off1) :- Uleb(data, off, 0);
    var (b, off2) :- Uleb(data, off1, 0);
    Ok((a + b, off2))
  }

  /** Static and instance fields are counted first, then direct and virtual methods. */
  ghost function ClassDataMethods(data: Text, off: nat): Parsed<seq<(nat, nat)>> {
    var (fields, methods, next) :- Counts(data, off);
    MethodsAfterFields(data, next, fields, methods)
  }

  ghost function MethodsAfterFields(data: Text, off: nat, fields: nat, methods: nat): Parsed<seq<(nat, nat)>> {
    var first :- SkipFields(data, off, fields);
    DefinedMethods(data, first, methods, 0, [])
  }

  predicate IsStatic(flags: nat) { flags / ACC_STATIC % 2 == 1 }

  function Owned(methods: seq<Method>, descriptor: Text): set<Text> {
    set i | 0 <= i < |methods| && methods[i].owner == descriptor :: methods[i].name
  }

  function StaticNames(methods: seq<Method>, descriptor: Text, defined: seq<(nat, nat)>): set<Text> {
    set k | 0 <= k < |defined| && defined[k].0 < |methods| && methods[defined[k].0].owner == descriptor
            && IsStatic(defined[k].1) :: methods[defined[k].0].name
  }

  predicate LooksLikeDex(data: Text) {
    |data| >= 0x70 && data[..4] == Ascii("dex\n")
  }

  ghost function ScanDex(data: Text, descriptor: Text): Parsed<Option<Info>> {
    if !LooksLikeDex(data) then Bad(NotADex) else
    var stringIdsSize := Word(data, 0x38);
    var stringIdsOff := Word(data, 0x3c);
    var typeIdsSize := Word(data, 0x40);
    var typeIdsOff := Word(data, 0x44);
    var methodIdsSize := Word(data, 0x58);
    var methodIdsOff := Word(data, 0x5c);
    var classDefsSize := Word(data, 0x60);
    var classDefsOff := Word(data, 0x64);
    var strings :- StringTable(data, stringIdsOff, stringIdsSize, 0, []);
    var types :- TypeTable(data, typeIdsOff, strings, typeIdsSize, 0, []);
    var methods :- MethodTable(data, methodIdsOff, strings, types, methodIdsSize, 0, []);
    var classes :- ClassTable(data, classDefsOff, types, classDefsSize, 0, map[]);
    if descriptor !in classes then Ok(None)
    else if classes[descriptor] == 0 then Ok(Some(Info(Owned(methods, descriptor), {}, false)))
    else ScanClass(data, methods, descriptor, classes[descriptor])
  }

  ghost function ScanClass(data: Text, methods: seq<Method>, descriptor: Text, classData: nat): Parsed<Option<Info>> {
    var defined :- ClassDataMethods(data, classData);
    Ok(Some(Info(Owned(methods, descriptor), StaticNames(methods, descriptor, defined), true)))
  }

  // -------------------------------------------------------------- scanner

  method ReadString(data: Text, table: nat, i: nat) returns (r: Parsed<Text>)
    ensures r == StringAt(data, table, i)
  {
    var off := ReadU32(data, table + 4 * i);
    if off.Bad? { return Bad(off.error); }
    var len := Uleb128(data, off.value);
    if len.Bad? { return Bad(len.error); }
    r := Cstr(data, len.value.1);
  }

  method ReadStrings(data: Text, table: nat, n: nat) returns (r: Parsed<seq<Text>>)
    ensures r == StringTable(data, table, n, 0, [])
  {
    var strings: seq<Text> := [];
    for i := 0 to n
      invariant StringTable(data, table, n, 0, []) == StringTable(data, table, n, i, strings)
    {
      var s := ReadString(data, table, i);
      if s.Bad? { return Bad(s.error); }
      strings := strings + [s.value];
    }
    r := Ok(strings);
  }

  method ReadTypes(data: Text, table: nat, n: nat, strings: seq<Text>) returns (r: Parsed<seq<Text>>)
    ensures r == TypeTable(data, table, strings, n, 0, [])
  {
    var types: seq<Text> := [];
    for i := 0 to n
      invariant TypeTable(data, table, strings, n, 0, []) == TypeTable(data, table, strings, n, i, types)
    {
      var t :- TypeAt(data, table, strings, i);
      types := types + [t];
    }
    r := Ok(types);
  }

  method ReadMethods(data: Text, table: nat, n: nat, strings: seq<Text>, types: seq<Text>) returns (r: Parsed<seq<Method>>)
    ensures r == MethodTable(data, table, strings, types, n, 0, [])
  {
    var methods: seq<Method> := [];
    for i := 0 to n
      invariant MethodTable(data, table, strings, types, n, 0, []) == MethodTable(data, table, strings, types, n, i, methods)
    {
      var m :- MethodAt(data, table, strings, types, i);
      methods := methods + [m];
    }
    r := Ok(methods);
  }

  method ReadClasses(data: Text, table: nat, n: nat, types: seq<Text>) returns (r: Parsed<map<Text, nat>>)
    ensures r == ClassTable(data, table, types, n, 0, map[])
  {
    var classes: map<Text, nat> := map[];
    for i := 0 to n
      invariant ClassTable(data, table, types, n, 0, map[]) == ClassTable(data, table, types, n, i, classes)
    {
      var c :- ClassAt(data, table, types, i);
      classes := classes[c.0 := c.1];
    }
    r := Ok(classes);
  }

  method ParseClassDataMethods(data: Text, start: nat) returns (r: Parsed<seq<(nat, nat)>>)
    ensures r == ClassDataMethods(data, start)
  {
    var staticFields :- Uleb128(data, start);
    var instanceFields :- Uleb128(data, staticFields.1);
    var directMethods :- Uleb128(data, instanceFields.1);
    var virtualMethods :- Uleb128(data, directMethods.1);
    var off := virtualMethods.1;
    var fields := staticFields.0 + instanceFields.0;
    for i := 0 to fields
      invariant SkipFields(data, virtualMethods.1, fields) == SkipFields(data, off, fields - i)
    {
      var fieldIdxDiff :- Uleb128(data, off);
      var accessFlags :- Uleb128(data, fieldIdxDiff.1);
      off := accessFlags.1;
    }
    var methods: seq<(nat, nat)>, idx := [], 0;
    var count := directMethods.0 + virtualMethods.0;
    ghost var first := off;
    for i := 0 to count
      invariant DefinedMethods(data, first, count, 0, []) == DefinedMethods(data, off, count - i, idx, methods)
    {
      var diff :- Uleb128(data, off);
      var flags :- Uleb128(data, diff.1);
      var code :- Uleb128(data, flags.1);
      off := code.1;
      idx := idx + diff.0;
      methods := methods + [(idx, flags.0)];
    }
    r := Ok(methods);
  }

  method Scan(data: Text, descriptor: Text) returns (r: Parsed<Option<Info>>)
    ensures r == ScanDex(data, descriptor)
  {
    if !LooksLikeDex(data) { return Bad(NotADex); }
    var stringIdsSize := Word(data, 0x38);
    var stringIdsOff := Word(data, 0x3c);
    var typeIdsSize := Word(data, 0x40);
    var typeIdsOff := Word(data, 0x44);
    var methodIdsSize := Word(data, 0x58);
    var methodIdsOff := Word(data, 0x5c);
    var classDefsSize := Word(data, 0x60);
    var classDefsOff := Word(data, 0x64);
    var strings :- ReadStrings(data, stringIdsOff, stringIdsSize);
    var types :- ReadTypes(data, typeIdsOff, typeIdsSize, strings);
    var methods :- ReadMethods(data, methodIdsOff, methodIdsSize, strings, types);
    var classes :- ReadClasses(data, classDefsOff, classDefsSize, types);
    if descriptor !in classes { return Ok(None); }
    var any := Owned(methods, descriptor);
    if classes[descriptor] == 0 { return Ok(Some(Info(any, {}, false))); }
    var defined :- ParseClassDataMethods(data, classes[descriptor]);
    var statics: set<Text> := {};
    for k := 0 to |defined|
      invariant statics == StaticNames(methods, descriptor, defined[..k])
    {
      var (idx, flags) := defined[k];
      StaticNamesStep(methods, descriptor, defined, k);
      if idx < |methods| && methods[idx].owner == descriptor && IsStatic(flags) {
        statics := statics + {methods[idx].name};
      }
    }
    assert defined[..|defined|] == defined;
    r := Ok(Some(Info(any, statics, true)));
  }

  lemma StaticNamesStep(methods: seq<Method>, descriptor: Text, defined: seq<(nat, nat)>, k: nat)
    requires k < |defined|
    ensures StaticNames(methods, descriptor, defined[..k + 1]) == StaticNames(methods, descriptor, defined[..k]) +
              if defined[k].0 < |methods| && methods[defined[k].0].owner == descriptor && IsStatic(defined[k].1)
              then {methods[defined[k].0].name} else {}
  {
    var a, b := defined[..k], defined[..k + 1];
    assert b == a + [defined[k]];
  }
}
