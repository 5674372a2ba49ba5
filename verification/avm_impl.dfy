/** Deployment bookkeeping of the engine: the storage key of a DApp, the object-size table, the
    deployment fees, the storage layout of a transformed module and the mapping of deployment
    failures to result codes. The bytecode transformers, the class hierarchy and the fee
    schedule are not part of this model; what they produce enters as parameters. */
module AvmImpl {
  import opened JavaTypes
  import opened Wrappers
  import opened EnergyHelper

  const HEX_DIGITS: string := "0123456789abcdef"

  // ---------------------------------------------------------------------------------------
  // Storage key: lower-case hexadecimal of the address bytes

  /** `v >>> 4` for the byte read as unsigned: its high nibble. */
  function HighNibble(b: Byte): (n: nat)
    ensures n < 16 && n == UnsignedByte(b) / 16
  {
    UnsignedByte(b) / 16
  }

  /** `v & 0x0F` for the byte read as unsigned: its low nibble. */
  function LowNibble(b: Byte): (n: nat)
    ensures n < 16 && n == UnsignedByte(b) % 16
  {
    UnsignedByte(b) % 16
  }

  /** The two nibbles together give back the unsigned value of the byte. */
  lemma NibblesRecombine(b: Byte)
    ensures 16 * HighNibble(b) + LowNibble(b) == UnsignedByte(b)
  {
  }

  /** The two hex digits of every byte, high nibble first. */
  function HexString(bytes: Bytes): (s: string)
    ensures |s| == 2 * |bytes|
  {
    if bytes == [] then []
    else [HEX_DIGITS[HighNibble(bytes[0])], HEX_DIGITS[LowNibble(bytes[0])]] + HexString(bytes[1..])
  }

  /** The first two characters of a non-empty encoding are the digits of the first byte. */
  lemma HexStringCons(bytes: Bytes)
    requires bytes != []
    ensures HexString(bytes) ==
            [HEX_DIGITS[HighNibble(bytes[0])], HEX_DIGITS[LowNibble(bytes[0])]] + HexString(bytes[1..])
  {
  }

  /** Characters 2i and 2i+1 are the high and the low nibble of byte i. */
  lemma {:induction false} HexStringAt(bytes: Bytes, i: nat)
    requires i < |bytes|
    ensures var s := HexString(bytes);
            s[2 * i] == HEX_DIGITS[HighNibble(bytes[i])] &&
            s[2 * i + 1] == HEX_DIGITS[LowNibble(bytes[i])]
    decreases i
  {
    if i > 0 {
      HexStringAt(bytes[1..], i - 1);
      HexStringCons(bytes);
      assert bytes[1..][i - 1] == bytes[i];
    }
  }

  /** The value of a lower-case hex digit. */
  function HexValue(c: char): (n: nat)
    ensures n < 16
  {
    if '0' <= c <= '9' then (c - '0') as nat
    else if 'a' <= c <= 'f' then (c - 'a') as nat + 10
    else 0
  }

  lemma HexValueOfDigit(n: nat)
    requires n < 16
    ensures HexValue(HEX_DIGITS[n]) == n
  {
  }

  /** Reads back a hex string written by HexString, two digits at a time; a trailing odd digit
      is ignored. */
  function HexDecode(s: string): Bytes
  {
    if |s| < 2 then []
    else [FromUnsigned(16 * HexValue(s[0]) + HexValue(s[1]))] + HexDecode(s[2..])
  }

  /** The two digits of a byte decode to that byte. */
  lemma HexPairDecodes(b: Byte)
    ensures FromUnsigned(16 * HexValue(HEX_DIGITS[HighNibble(b)]) + HexValue(HEX_DIGITS[LowNibble(b)])) == b
  {
    HexValueOfDigit(HighNibble(b));
    HexValueOfDigit(LowNibble(b));
    NibblesRecombine(b);
  }

  lemma HexDecodeCons(c0: char, c1: char, rest: string)
    ensures HexDecode([c0, c1] + rest) == [FromUnsigned(16 * HexValue(c0) + HexValue(c1))] + HexDecode(rest)
  {
    assert ([c0, c1] + rest)[2..] == rest;
  }

  /** The encoding loses nothing: decoding gives back the address. */
  lemma {:induction false} HexRoundTrip(bytes: Bytes)
    ensures HexDecode(HexString(bytes)) == bytes
    decreases |bytes|
  {
    if bytes != [] {
      var c0, c1 := HEX_DIGITS[HighNibble(bytes[0])], HEX_DIGITS[LowNibble(bytes[0])];
      var rest := HexString(bytes[1..]);
      calc {
        HexDecode(HexString(bytes));
      == { HexStringCons(bytes); }
        HexDecode([c0, c1] + rest);
      == { HexDecodeCons(c0, c1, rest); }
        [FromUnsigned(16 * HexValue(c0) + HexValue(c1))] + HexDecode(rest);
      == { HexPairDecodes(bytes[0]); HexRoundTrip(bytes[1..]); }
        [bytes[0]] + bytes[1..];
      == 
        bytes;
      }
    }
  }

  /** Distinct addresses get distinct directory names. */
  lemma HexStringInjective(a: Bytes, b: Bytes)
    requires HexString(a) == HexString(b)
    ensures a == b
  {
    HexRoundTrip(a);
    HexRoundTrip(b);
  }

  /** Every character of an encoded address is a lower-case hex digit. */
  lemma HexStringAlphabet(bytes: Bytes)
    ensures forall c :: c in HexString(bytes) ==> c in HEX_DIGITS
  {
    var s := HexString(bytes);
    forall c | c in s
      ensures c in HEX_DIGITS
    {
      var j :| 0 <= j < |s| && s[j] == c;
      var i := j / 2;
      HexStringAt(bytes, i);
      if j % 2 == 0 {
        assert j == 2 * i;
      } else {
        assert j == 2 * i + 1;
      }
    }
  }

  /** byteArrayToString: fills a char array two digits per byte. */
  method ByteArrayToString(bytes: Bytes) returns (s: string)
    ensures s == HexString(bytes)
  {
    var length := |bytes|;
    var hexChars := new char[length * 2];
    for i := 0 to length
      invariant forall k :: 0 <= k < i ==>
                  hexChars[2 * k] == HEX_DIGITS[HighNibble(bytes[k])] &&
                  hexChars[2 * k + 1] == HEX_DIGITS[LowNibble(bytes[k])]
    {
      hexChars[i * 2] := HEX_DIGITS[HighNibble(bytes[i])];
      hexChars[i * 2 + 1] := HEX_DIGITS[LowNibble(bytes[i])];
    }
    s := hexChars[..];
    var expected := HexString(bytes);
    forall j | 0 <= j < |s|
      ensures s[j] == expected[j]
    {
      var k := j / 2;
      HexStringAt(bytes, k);
      assert j == 2 * k || j == 2 * k + 1;
    }
  }

  // ---------------------------------------------------------------------------------------
  // Object sizes

  /** The instance sizes of the runtime classes the sandbox starts from. */
  function RuntimeObjectSizes(): (sizes: map<string, int>)
    ensures sizes.Keys == {"java/lang/Object", "java/lang/Class", "java/lang/Math", "java/lang/String"}
    ensures forall name :: name in sizes ==> sizes[name] == 4
  {
    map["java/lang/Object" := 4, "java/lang/Class" := 4, "java/lang/Math" := 4, "java/lang/String" := 4]
  }

  /** computeObjectSizes: a copy of the runtime sizes with the DApp sizes put over it. The DApp
      sizes are what the heap-cost calculator computes from the class hierarchy. */
  method ComputeObjectSizes(runtimeObjectSizes: map<string, int>, dappObjectSizes: map<string, int>)
    returns (objectSizes: map<string, int>)
    ensures objectSizes.Keys == runtimeObjectSizes.Keys + dappObjectSizes.Keys
    ensures forall name :: name in dappObjectSizes ==> objectSizes[name] == dappObjectSizes[name]
    ensures forall name :: name in runtimeObjectSizes && name !in dappObjectSizes ==>
              objectSizes[name] == runtimeObjectSizes[name]
  {
    objectSizes := runtimeObjectSizes;
    objectSizes := objectSizes + dappObjectSizes;  // putAll
  }

  // ---------------------------------------------------------------------------------------
  // The module being deployed

  /** A DApp in memory. mainClass is the name of the entry class as the bytes it is stored as;
      None is a module whose manifest names no main class. The two counts are for billing and are
      zero for a module loaded back from storage. */
  datatype DappModule = DappModule(mainClass: Option<Bytes>, classes: map<string, Bytes>,
                                   bytecodeSize: nat, numberOfClasses: nat)

  /** validateDapp: every module is accepted for now. */
  function ValidateDapp(dapp: DappModule): (valid: bool)
  {
    true
  }

  /** validateDapp rejects nothing. */
  lemma ValidateDappAcceptsAll(dapp: DappModule)
    ensures ValidateDapp(dapp)
  {
  }

  // ---------------------------------------------------------------------------------------
  // Reading a jar

  /** What the search of the jar for its manifest finds: no manifest, a manifest that cannot be
      read, one without a Main-Class entry, or the entry's value. */
  datatype ManifestLookup = NoManifest | Unreadable | NoMainClassKey | MainClassKey(name: Bytes)

  /** readDapp as written: the module is always built, with no main class when the search finds
      none; a manifest without the Main-Class entry is a null dereference. The classes come from
      the class hierarchy, which is not part of this model. */
  function ReadDappAsWritten(classes: map<string, Bytes>, jarLength: nat, manifest: ManifestLookup)
    : (r: Result<Option<DappModule>, Thrown>)
    ensures r != Ok(None)
    ensures r.Err? <==> manifest == NoMainClassKey
    ensures r.Ok? ==> r.value.value.classes == classes && r.value.value.numberOfClasses == |classes|
                      && r.value.value.bytecodeSize == jarLength
                      && (r.value.value.mainClass.Some? <==> manifest.MainClassKey?)
    ensures r.Ok? && manifest.MainClassKey? ==> r.value.value.mainClass == Some(manifest.name)
    ensures r.Err? ==> r.error == OtherThrowable
  {
    match manifest
    case NoMainClassKey => Err(OtherThrowable)
    case MainClassKey(name) => Ok(Some(DappModule(Some(name), classes, jarLength, |classes|)))
    case _ => Ok(Some(DappModule(None, classes, jarLength, |classes|)))
  }

  /** readDapp as deploy expects it: a jar whose manifest gives no main class is no module. */
  function ReadDapp(classes: map<string, Bytes>, jarLength: nat, manifest: ManifestLookup)
    : (r: Result<Option<DappModule>, Thrown>)
    ensures r.Ok?
    ensures r.value.Some? <==> manifest.MainClassKey?
    ensures r.value.Some? ==> r.value.value == DappModule(Some(manifest.name), classes, jarLength, |classes|)
  {
    if manifest.MainClassKey? then Ok(Some(DappModule(Some(manifest.name), classes, jarLength, |classes|)))
    else Ok(None)
  }

  // ---------------------------------------------------------------------------------------
  // Fees

  /** The fee levels of the bytecode fee schedule, which is not part of this model. */
  datatype FeeLevels = FeeLevels(process: nat, processData: nat, codeDeposit: nat)

  /** The processing charge, billed before validation: a fixed part plus a tenth (rounded down)
      of the data rate times the module size times one more than the class count. */
  function ProcessingCharge(fees: FeeLevels, dapp: DappModule): (charge: nat)
    ensures fees.process <= charge
    ensures dapp.bytecodeSize == 0 || fees.processData == 0 ==> charge == fees.process
  {
    fees.process + fees.processData * dapp.bytecodeSize * (1 + dapp.numberOfClasses) / 10
  }

  /** A module that is no larger and has no more classes is never charged more to process. */
  lemma ProcessingChargeMonotone(fees: FeeLevels, small: DappModule, large: DappModule)
    requires small.bytecodeSize <= large.bytecodeSize && small.numberOfClasses <= large.numberOfClasses
    ensures fees.process <= ProcessingCharge(fees, small) <= ProcessingCharge(fees, large)
  {
    var a := fees.processData * small.bytecodeSize;
    var b := fees.processData * large.bytecodeSize;
    assert a <= b by {
      MulMonotone(fees.processData, small.bytecodeSize, large.bytecodeSize);
    }
    MulMonotone(1 + small.numberOfClasses, a, b);
    MulMonotone(b, 1 + small.numberOfClasses, 1 + large.numberOfClasses);
    var x, y := a * (1 + small.numberOfClasses), b * (1 + large.numberOfClasses);
    assert x <= y;
    assert x / 10 <= y / 10;
  }

  lemma MulMonotone(k: nat, x: nat, y: nat)
    requires x <= y
    ensures k * x <= k * y && x * k <= y * k
  {
    assert k * y == k * x + k * (y - x);
  }

  /** The deposit charge: the deposit rate times the stored size. */
  function DepositCharge(fees: FeeLevels, storedSize: nat): (charge: nat)
    ensures storedSize == 0 || fees.codeDeposit == 0 ==> charge == 0
  {
    fees.codeDeposit * storedSize
  }

  /** The deposit for a stored module is the deposit for its main-class bytes plus the deposit for
      its class bytes: each stored byte costs the same. */
  lemma DepositChargeAdditive(fees: FeeLevels, mainClass: Bytes, classes: map<string, Bytes>)
    ensures DepositCharge(fees, StoredSize(mainClass, classes))
            == DepositCharge(fees, |mainClass|) + DepositCharge(fees, TotalSize(classes))
  {
    var k, a, b := fees.codeDeposit, |mainClass|, TotalSize(classes);
    assert k * (a + b) == k * a + k * b;
  }

  /** Storing more bytes never costs a smaller deposit. */
  lemma DepositChargeMonotone(fees: FeeLevels, small: nat, large: nat)
    requires small <= large
    ensures DepositCharge(fees, small) <= DepositCharge(fees, large)
  {
    MulMonotone(fees.codeDeposit, small, large);
  }

  // ---------------------------------------------------------------------------------------
  // Storage layout: one directory per address, a MAIN file and one `<name>.class` per class

  const MAIN_FILE: string := "MAIN"
  const CLASS_SUFFIX: string := ".class"

  /** The total length of all class bytes, whatever order they are visited in. */
  ghost function TotalSize(classes: map<string, Bytes>): nat
    decreases |classes|
  {
    if classes == map[] then 0
    else
      var k :| k in classes;
      assert |classes - {k}| < |classes| by {
        assert (classes - {k}).Keys == classes.Keys - {k};
      }
      |classes[k]| + TotalSize(classes - {k})
  }

  /** Taking any one class out first gives the same total. */
  lemma {:induction false} TotalSizeRemove(classes: map<string, Bytes>, k: string)
    requires k in classes
    ensures TotalSize(classes) == |classes[k]| + TotalSize(classes - {k})
    decreases |classes|
  {
    var j :| j in classes && TotalSize(classes) == |classes[j]| + TotalSize(classes - {j});
    if j != k {
      assert (classes - {j}).Keys == classes.Keys - {j};
      assert (classes - {k}).Keys == classes.Keys - {k};
      TotalSizeRemove(classes - {j}, k);
      TotalSizeRemove(classes - {k}, j);
      assert classes - {j} - {k} == classes - {k} - {j};
    }
  }

  /** The bytes storeTransformedDapp counts: the main-class name and every class body. */
  ghost function StoredSize(mainClass: Bytes, classes: map<string, Bytes>): nat
  {
    |mainClass| + TotalSize(classes)
  }

  /** The file a class is stored in. */
  function ClassFileName(name: string): (f: string)
    ensures |f| == |name| + |CLASS_SUFFIX| && f[..|name|] == name && f[|name|..] == CLASS_SUFFIX
  {
    name + CLASS_SUFFIX
  }

  /** Whether a file name ends in `.class`. */
  predicate IsClassFile(f: string): (b: bool)
    ensures b <==> |f| >= |CLASS_SUFFIX| && ClassFileName(f[..|f| - |CLASS_SUFFIX|]) == f
  {
    assert |f| >= |CLASS_SUFFIX| ==> f == f[..|f| - |CLASS_SUFFIX|] + f[|f| - |CLASS_SUFFIX|..];
    |f| >= |CLASS_SUFFIX| && f[|f| - |CLASS_SUFFIX|..] == CLASS_SUFFIX
  }

  /** The class name a `.class` file holds: the file name without its last six characters. */
  function ClassNameOf(f: string): (name: string)
    requires IsClassFile(f)
    ensures |name| == |f| - |CLASS_SUFFIX| && ClassFileName(name) == f
  {
    f[..|f| - |CLASS_SUFFIX|]
  }

  lemma ClassFileNameInverse(name: string, f: string)
    ensures IsClassFile(ClassFileName(name)) && ClassNameOf(ClassFileName(name)) == name
    ensures IsClassFile(f) ==> ClassFileName(ClassNameOf(f)) == f
  {
    if IsClassFile(f) {
      assert f == f[..|f| - |CLASS_SUFFIX|] + f[|f| - |CLASS_SUFFIX|..];
    }
  }

  /** The class files written for a map of classes: one file per class, named by ClassFileName. */
  ghost function ClassFiles(classes: map<string, Bytes>): map<string, Bytes>
    decreases |classes|
  {
    if classes == map[] then map[]
    else
      var k :| k in classes;
      assert |classes - {k}| < |classes| by {
        assert (classes - {k}).Keys == classes.Keys - {k};
      }
      ClassFiles(classes - {k})[ClassFileName(k) := classes[k]]
  }

  /** The files of a map of classes, one name at a time. */
  lemma {:induction false} ClassFilesAt(classes: map<string, Bytes>, f: string)
    ensures f in ClassFiles(classes) <==> IsClassFile(f) && ClassNameOf(f) in classes
    ensures f in ClassFiles(classes) ==> ClassFiles(classes)[f] == classes[ClassNameOf(f)]
    decreases |classes|
  {
    ClassFileNameInverse("", f);
    if classes != map[] {
      var k :| k in classes && ClassFiles(classes) == ClassFiles(classes - {k})[ClassFileName(k) := classes[k]];
      assert (classes - {k}).Keys == classes.Keys - {k};
      ClassFilesAt(classes - {k}, f);
      ClassFileNameInverse(k, f);
    }
  }

  /** A directory after a module is stored into it: what was there, MAIN overwritten, one file
      per class added or overwritten. */
  ghost function StoredDirectory(base: map<string, Bytes>, mainClass: Bytes, classes: map<string, Bytes>): map<string, Bytes>
  {
    base[MAIN_FILE := mainClass] + ClassFiles(classes)
  }

  /** A name is listed by the directory itself only if it has no separator: a class name with
      a `/` lands in a subdirectory. */
  predicate Listed(f: string)
  {
    '/' !in f
  }

  /** A class file is listed exactly when its class name is. */
  lemma ListedClassFileName(name: string)
    ensures Listed(ClassFileName(name)) <==> Listed(name)
  {
    var f := ClassFileName(name);
    if '/' in name {
      var i :| 0 <= i < |name| && name[i] == '/';
      assert f[i] == '/';
    }
    if '/' in f {
      var i :| 0 <= i < |f| && f[i] == '/';
      if i < |name| {
        assert name[i] == '/';
      }
    }
  }

  /** The classes loadTransformedDapp reads back: every listed `.class` file, keyed by its name
      without the suffix. Other files, MAIN among them, are ignored. */
  ghost function RecoveredClasses(dir: map<string, Bytes>): map<string, Bytes>
    decreases |dir|
  {
    if dir == map[] then map[]
    else
      var f :| f in dir;
      assert |dir - {f}| < |dir| by {
        assert (dir - {f}).Keys == dir.Keys - {f};
      }
      var rest := RecoveredClasses(dir - {f});
      if Listed(f) && IsClassFile(f) then rest[ClassNameOf(f) := dir[f]] else rest
  }

  /** Which classes are read back, one class name at a time: exactly those whose class file is
      in the directory and listed. */
  lemma {:induction false} RecoveredAt(dir: map<string, Bytes>, name: string)
    ensures name in RecoveredClasses(dir) <==> Listed(name) && ClassFileName(name) in dir
    ensures name in RecoveredClasses(dir) ==> RecoveredClasses(dir)[name] == dir[ClassFileName(name)]
    decreases |dir|
  {
    ClassFileNameInverse(name, "");
    ListedClassFileName(name);
    if dir != map[] {
      var f :| f in dir && RecoveredClasses(dir) ==
        var rest := RecoveredClasses(dir - {f});
        if Listed(f) && IsClassFile(f) then rest[ClassNameOf(f) := dir[f]] else rest;
      assert (dir - {f}).Keys == dir.Keys - {f};
      RecoveredAt(dir - {f}, name);
      ClassFileNameInverse("", f);
    }
  }

  /** No class file is called MAIN, so storing the classes never overwrites the main-class file. */
  lemma MainFileKept(base: map<string, Bytes>, mainClass: Bytes, classes: map<string, Bytes>)
    ensures MAIN_FILE in StoredDirectory(base, mainClass, classes)
    ensures StoredDirectory(base, mainClass, classes)[MAIN_FILE] == mainClass
  {
    ClassFilesAt(classes, MAIN_FILE);
  }

  /** Which files of a stored directory are class files, and what they hold. */
  lemma StoredClassFile(mainClass: Bytes, classes: map<string, Bytes>, f: string)
    requires f in StoredDirectory(map[], mainClass, classes) && IsClassFile(f)
    ensures ClassNameOf(f) in classes && StoredDirectory(map[], mainClass, classes)[f] == classes[ClassNameOf(f)]
  {
    assert !IsClassFile(MAIN_FILE);
    ClassFilesAt(classes, f);
  }

  /** A flat class name is stored in a listed class file. */
  lemma FlatClassFile(mainClass: Bytes, classes: map<string, Bytes>, name: string)
    requires name in classes && Listed(name)
    ensures var f := ClassFileName(name);
      f in StoredDirectory(map[], mainClass, classes) && Listed(f) && IsClassFile(f) && ClassNameOf(f) == name
  {
    var f := ClassFileName(name);
    ClassFileNameInverse(name, f);
    assert '/' !in CLASS_SUFFIX;
    ClassFilesAt(classes, f);
  }

  /** Every flat class comes back under its own name with its own bytes. */
  lemma RecoveredIncludesStored(mainClass: Bytes, classes: map<string, Bytes>, name: string)
    requires name in classes && Listed(name)
    ensures var back := RecoveredClasses(StoredDirectory(map[], mainClass, classes));
      name in back && back[name] == classes[name]
  {
    var f := ClassFileName(name);
    FlatClassFile(mainClass, classes, name);
    StoredClassFile(mainClass, classes, f);
    RecoveredAt(StoredDirectory(map[], mainClass, classes), name);
  }

  /** Nothing comes back that was not stored. */
  lemma RecoveredOnlyStored(mainClass: Bytes, classes: map<string, Bytes>, name: string)
    requires name in RecoveredClasses(StoredDirectory(map[], mainClass, classes))
    ensures name in classes
  {
    var f := ClassFileName(name);
    RecoveredAt(StoredDirectory(map[], mainClass, classes), name);
    ClassFileNameInverse(name, f);
    StoredClassFile(mainClass, classes, f);
  }

  /** Storing and loading back are inverse for classes with flat names: every class comes back
      under its own name with its own bytes, and MAIN holds the main class. */
  lemma StoreLoadRoundTrip(mainClass: Bytes, classes: map<string, Bytes>)
    requires forall name :: name in classes ==> Listed(name)
    ensures RecoveredClasses(StoredDirectory(map[], mainClass, classes)) == classes
    ensures StoredDirectory(map[], mainClass, classes)[MAIN_FILE] == mainClass
  {
    var back := RecoveredClasses(StoredDirectory(map[], mainClass, classes));
    forall name | name in classes
      ensures name in back && back[name] == classes[name]
    {
      RecoveredIncludesStored(mainClass, classes, name);
    }
    forall name | name in back
      ensures name in classes
    {
      RecoveredOnlyStored(mainClass, classes, name);
    }
    MainFileKept(map[], mainClass, classes);
  }

  /** Storing over a directory that already holds class files: the new classes come back, and
      so does every stale class file the new module did not overwrite. */
  lemma RecoveredAfterStore(base: map<string, Bytes>, mainClass: Bytes, classes: map<string, Bytes>)
    requires forall name :: name in classes ==> Listed(name)
    ensures RecoveredClasses(StoredDirectory(base, mainClass, classes)) == RecoveredClasses(base) + classes
  {
    var dir := StoredDirectory(base, mainClass, classes);
    var lhs := RecoveredClasses(dir);
    var rhs := RecoveredClasses(base) + classes;
    forall name
      ensures (name in lhs <==> name in rhs) && (name in lhs ==> lhs[name] == rhs[name])
    {
      var f := ClassFileName(name);
      RecoveredAt(dir, name);
      RecoveredAt(base, name);
      ClassFileNameInverse(name, f);
      ClassFilesAt(classes, f);
      assert f != MAIN_FILE by {
        ClassFileNameInverse(name, MAIN_FILE);
      }
    }
    assert lhs.Keys == rhs.Keys;
  }

  /** A class whose name holds a `/` is not read back. */
  lemma NestedClassesAreLost(mainClass: Bytes, classes: map<string, Bytes>, name: string)
    requires name in classes && !Listed(name)
    ensures name !in RecoveredClasses(StoredDirectory(map[], mainClass, classes))
  {
    RecoveredAt(StoredDirectory(map[], mainClass, classes), name);
  }

  /** The sizes of the classes named in `order`, added up in that order. */
  ghost function SizeSum(classes: map<string, Bytes>, order: seq<string>): nat
    requires forall i :: 0 <= i < |order| ==> order[i] in classes
  {
    if order == [] then 0 else SizeSum(classes, order[..|order| - 1]) + |classes[order[|order| - 1]]|
  }

  /** Adding the sizes up in any order that visits every class once gives the total. */
  lemma {:induction false} SizeSumTotal(classes: map<string, Bytes>, order: seq<string>, written: map<string, Bytes>)
    requires forall i :: 0 <= i < |order| ==> order[i] in classes
    requires forall i, j :: 0 <= i < j < |order| ==> order[i] != order[j]
    requires forall i :: 0 <= i < |order| ==> order[i] in written
    requires forall j :: j in written ==> j in order
    requires forall j :: j in written ==> written[j] == classes[j]
    ensures SizeSum(classes, order) == TotalSize(written)
    decreases |order|
  {
    if order == [] {
      assert written == map[];
    } else {
      var last := order[|order| - 1];
      var prefix := order[..|order| - 1];
      forall j | j in written - {last}
        ensures j in prefix
      {
        var i :| 0 <= i < |order| && order[i] == j;
        assert prefix[i] == j;
      }
      SizeSumTotal(classes, prefix, written - {last});
      TotalSizeRemove(written, last);
    }
  }

  /** Adding a class adds its file and nothing else. */
  lemma ClassFilesInsert(classes: map<string, Bytes>, k: string, v: Bytes)
    ensures ClassFiles(classes[k := v]) == ClassFiles(classes)[ClassFileName(k) := v]
  {
    var lhs := ClassFiles(classes[k := v]);
    var rhs := ClassFiles(classes)[ClassFileName(k) := v];
    forall f
      ensures (f in lhs <==> f in rhs) && (f in lhs ==> lhs[f] == rhs[f])
    {
      ClassFilesAt(classes[k := v], f);
      ClassFilesAt(classes, f);
      ClassFileNameInverse(k, f);
    }
    assert lhs.Keys == rhs.Keys;
  }

  /** Writing one more class file into a directory. */
  lemma ClassFilesAdd(base: map<string, Bytes>, classes: map<string, Bytes>, k: string, v: Bytes)
    ensures (base + ClassFiles(classes))[ClassFileName(k) := v] == base + ClassFiles(classes[k := v])
  {
    ClassFilesInsert(classes, k, v);
    var files := ClassFiles(classes);
    assert (base + files)[ClassFileName(k) := v] == base + files[ClassFileName(k) := v];
  }

  /** Where the loop of storeTransformedDapp stands: the classes not `pending` have been
      written into `dir`, giving `newDir`, in the order `order`, and `size` counts their bytes. */
  ghost predicate Writing(dir: map<string, Bytes>, classes: map<string, Bytes>, pending: set<string>,
                          newDir: map<string, Bytes>, size: nat, order: seq<string>)
  {
    && pending <= classes.Keys
    && newDir == dir + ClassFiles(classes - pending)
    && (forall i :: 0 <= i < |order| ==> order[i] in classes && order[i] !in pending)
    && (forall i, j :: 0 <= i < j < |order| ==> order[i] != order[j])
    && (forall j :: j in classes && j !in pending ==> j in order)
    && size == SizeSum(classes, order)
  }

  lemma WritingStart(dir: map<string, Bytes>, classes: map<string, Bytes>)
    ensures Writing(dir, classes, classes.Keys, dir, 0, [])
  {
    assert classes - classes.Keys == map[];
    assert ClassFiles(map[]) == map[];
    assert dir + map[] == dir;
    assert dir == dir + ClassFiles(classes - classes.Keys);
    assert SizeSum(classes, []) == 0;
  }

  lemma WritingStep(dir: map<string, Bytes>, classes: map<string, Bytes>, pending: set<string>,
                    newDir: map<string, Bytes>, size: nat, order: seq<string>, k: string)
    requires Writing(dir, classes, pending, newDir, size, order)
    requires k in pending
    ensures Writing(dir, classes, pending - {k}, newDir[ClassFileName(k) := classes[k]],
                    size + |classes[k]|, order + [k])
  {
    assert classes - (pending - {k}) == (classes - pending)[k := classes[k]];
    ClassFilesAdd(dir, classes - pending, k, classes[k]);
    assert (order + [k])[..|order|] == order;
  }

  lemma WritingDone(dir: map<string, Bytes>, classes: map<string, Bytes>,
                    newDir: map<string, Bytes>, size: nat, order: seq<string>)
    requires Writing(dir, classes, {}, newDir, size, order)
    ensures newDir == dir + ClassFiles(classes) && size == TotalSize(classes)
  {
    assert classes - {} == classes;
    SizeSumTotal(classes, order, classes);
  }

  /** The loop of storeTransformedDapp: writes one `.class` file per class into a directory and
      counts the bytes written. */
  method WriteClassFiles(dir: map<string, Bytes>, classes: map<string, Bytes>) returns (newDir: map<string, Bytes>, size: nat)
    ensures newDir == dir + ClassFiles(classes)
    ensures size == TotalSize(classes)
  {
    newDir, size := dir, 0;
    var pending := classes.Keys;
    ghost var order: seq<string> := [];
    WritingStart(dir, classes);
    while pending != {}
      invariant Writing(dir, classes, pending, newDir, size, order)
      decreases pending
    {
      var k :| k in pending;
      WritingStep(dir, classes, pending, newDir, size, order, k);
      newDir := newDir[ClassFileName(k) := classes[k]];
      size := size + |classes[k]|;
      pending := pending - {k};
      order := order + [k];
    }
    WritingDone(dir, classes, newDir, size, order);
  }

  /** Reading one more directory entry back. */
  lemma RecoveredInsert(dir: map<string, Bytes>, f: string, v: Bytes)
    requires f !in dir
    ensures RecoveredClasses(dir[f := v]) ==
      if Listed(f) && IsClassFile(f) then RecoveredClasses(dir)[ClassNameOf(f) := v] else RecoveredClasses(dir)
  {
    var lhs := RecoveredClasses(dir[f := v]);
    var rhs := if Listed(f) && IsClassFile(f) then RecoveredClasses(dir)[ClassNameOf(f) := v] else RecoveredClasses(dir);
    forall name
      ensures (name in lhs <==> name in rhs) && (name in lhs ==> lhs[name] == rhs[name])
    {
      RecoveredAt(dir[f := v], name);
      RecoveredAt(dir, name);
      ClassFileNameInverse(name, f);
      ListedClassFileName(name);
    }
    assert lhs.Keys == rhs.Keys;
  }

  /** A directory with no listed entries reads back no classes. */
  lemma RecoveredNothing(dir: map<string, Bytes>)
    requires forall f :: f in dir ==> !Listed(f)
    ensures RecoveredClasses(dir) == map[]
  {
    forall name | name in RecoveredClasses(dir)
      ensures false
    {
      RecoveredAt(dir, name);
      ListedClassFileName(name);
    }
  }

  /** The loop of loadTransformedDapp: goes through the listed names of a directory and reads
      every `.class` file back under its name without the suffix. */
  method ReadClassFiles(dir: map<string, Bytes>) returns (classes: map<string, Bytes>)
    ensures classes == RecoveredClasses(dir)
  {
    classes := map[];
    var pending := set f | f in dir && Listed(f);
    RecoveredNothing(dir - pending);
    while pending != {}
      invariant pending <= dir.Keys
      invariant forall f :: f in pending ==> Listed(f)
      invariant classes == RecoveredClasses(dir - pending)
      decreases pending
    {
      var fileName :| fileName in pending;
      assert dir - (pending - {fileName}) == (dir - pending)[fileName := dir[fileName]];
      RecoveredInsert(dir - pending, fileName, dir[fileName]);
      if |fileName| >= |CLASS_SUFFIX| && fileName[|fileName| - |CLASS_SUFFIX|..] == CLASS_SUFFIX {
        var name := fileName[..|fileName| - |CLASS_SUFFIX|];
        classes := classes[name := dir[fileName]];
      }
      pending := pending - {fileName};
    }
    assert dir - {} == dir;
  }

  // ---------------------------------------------------------------------------------------
  // Failures and results

  /** What a step of the pipeline can throw, by the catch clause that handles it. */
  datatype Thrown =
    | OutOfEnergyError   // the energy budget is exhausted
    | AvmException       // any other failure inside the sandbox
    | FatalAvmError      // an engine bug or a lower-level fault
    | OtherThrowable     // anything else, e.g. an I/O failure or a null dereference

  datatype AvmCode = Success | InvalidJar | InvalidCode | OutOfEnergy | Failure

  datatype AvmResult = AvmResult(code: AvmCode, energy: int)

  /** A deployment either returns a result or takes the whole process down with an exit status. */
  datatype DeployOutcome = Returned(result: AvmResult) | ProcessExit(status: int)

  /** The catch clauses of deploy, in order. Engine faults end the process; faults of the DApp
      become a result charged nothing. */
  function Catch(thrown: Thrown): (outcome: DeployOutcome)
    ensures outcome.ProcessExit? <==> thrown == FatalAvmError || thrown == OtherThrowable
    ensures outcome.Returned? ==> outcome.result.energy == 0
    ensures outcome == Returned(AvmResult(OutOfEnergy, 0)) <==> thrown == OutOfEnergyError
    ensures outcome == Returned(AvmResult(Failure, 0)) <==> thrown == AvmException
    ensures thrown == FatalAvmError ==> outcome == ProcessExit(-1)
    ensures thrown == OtherThrowable ==> outcome == ProcessExit(1)
  {
    match thrown
    case FatalAvmError => ProcessExit(-1)
    case OutOfEnergyError => Returned(AvmResult(OutOfEnergy, 0))
    case AvmException => Returned(AvmResult(Failure, 0))
    case OtherThrowable => ProcessExit(1)
  }

  // ---------------------------------------------------------------------------------------
  // The file system under the DApps directory

  /** The directories after storeTransformedDapp: the address directory exists, and unless the
      module has no main class it holds MAIN and the class files over what it held before. */
  ghost function AfterStore(dirs: map<string, map<string, Bytes>>, address: Bytes, dapp: DappModule)
    : map<string, map<string, Bytes>>
  {
    var id := HexString(address);
    var base := if id in dirs then dirs[id] else map[];
    dirs[id := if dapp.mainClass.None? then base else StoredDirectory(base, dapp.mainClass.value, dapp.classes)]
  }

  lemma AfterStoreAt(dirs: map<string, map<string, Bytes>>, address: Bytes, dapp: DappModule,
                     id: string, base: map<string, Bytes>)
    requires id == HexString(address) && base == if id in dirs then dirs[id] else map[]
    ensures dapp.mainClass.None? ==> AfterStore(dirs, address, dapp) == dirs[id := base]
    ensures dapp.mainClass.Some? ==>
              AfterStore(dirs, address, dapp) == dirs[id := base][id := StoredDirectory(base, dapp.mainClass.value, dapp.classes)]
  {
    if dapp.mainClass.Some? {
      var stored := StoredDirectory(base, dapp.mainClass.value, dapp.classes);
      assert dirs[id := base][id := stored] == dirs[id := stored];
    }
  }

  class DappStore {
    /** Directory name to (file name to contents). */
    var dirs: map<string, map<string, Bytes>>

    constructor ()
      ensures dirs == map[]
    {
      dirs := map[];
    }

    /** storeTransformedDapp: creates the address directory, writes MAIN and one file per class,
        and returns the number of bytes written. A module without a main class throws (a null
        dereference) once the directory exists and before anything is written into it. */
    method StoreTransformedDapp(address: Bytes, dapp: DappModule) returns (r: Result<nat, Thrown>)
      modifies this
      ensures dirs == AfterStore(old(dirs), address, dapp)
      ensures r == if dapp.mainClass.None? then Err(OtherThrowable)
                   else Ok(StoredSize(dapp.mainClass.value, dapp.classes))
    {
      var id := ByteArrayToString(address);
      var base := if id in dirs then dirs[id] else map[];
      AfterStoreAt(dirs, address, dapp, id, base);
      dirs := dirs[id := base];  // mkdir
      if dapp.mainClass.None? {
        return Err(OtherThrowable);
      }
      var mainClass := dapp.mainClass.value;
      var withMain := base[MAIN_FILE := mainClass];
      var dir, classBytes := WriteClassFiles(withMain, dapp.classes);
      dirs := dirs[id := dir];
      var size := |mainClass| + classBytes;
      r := Ok(size);
    }

    /** loadTransformedDapp: nothing when the address has no directory; otherwise MAIN (whose
        absence is a read failure) and every listed `.class` file. A loaded module carries no
        billing counts. */
    method LoadTransformedDapp(address: Bytes) returns (r: Result<Option<DappModule>, Thrown>)
      ensures var id := HexString(address);
              if id !in dirs then r == Ok(None)
              else if MAIN_FILE !in dirs[id] then r == Err(OtherThrowable)
              else r == Ok(Some(DappModule(Some(dirs[id][MAIN_FILE]), RecoveredClasses(dirs[id]), 0, 0)))
    {
      var id := ByteArrayToString(address);
      if id !in dirs {
        return Ok(None);
      }
      var dir := dirs[id];
      if MAIN_FILE !in dir {
        return Err(OtherThrowable);
      }
      var mainClass := dir[MAIN_FILE];
      var classes := ReadClassFiles(dir);
      r := Ok(Some(DappModule(Some(mainClass), classes, 0, 0)));
    }
  }

  /** A module stored under a fresh address and loaded back: with a main class and flat class
      names it comes back whole, without its billing counts; without a main class the directory
      is left without MAIN and loading it fails. */
  method StoreThenLoad(address: Bytes, dapp: DappModule) returns (loaded: Result<Option<DappModule>, Thrown>)
    ensures dapp.mainClass.None? ==> loaded == Err(OtherThrowable)
    ensures dapp.mainClass.Some? && (forall name :: name in dapp.classes ==> Listed(name)) ==>
              loaded == Ok(Some(DappModule(dapp.mainClass, dapp.classes, 0, 0)))
  {
    var store := new DappStore();
    var _ := store.StoreTransformedDapp(address, dapp);
    if dapp.mainClass.Some? {
      MainFileKept(map[], dapp.mainClass.value, dapp.classes);
      if forall name :: name in dapp.classes ==> Listed(name) {
        StoreLoadRoundTrip(dapp.mainClass.value, dapp.classes);
      }
    }
    loaded := store.LoadTransformedDapp(address);
  }

  // ---------------------------------------------------------------------------------------
  // deploy

  /** What the bytecode transformers make of the classes given the object sizes; they are not
      part of this model, and may throw. */
  type Transformer = (map<string, Bytes>, map<string, int>) -> Result<map<string, Bytes>, Thrown>

  /** The module deploy hands to storeTransformedDapp, if it gets that far: a module was read,
      its processing charge fits the energy limit and the transformers did not throw. */
  function ModuleToStore(read: Result<Option<DappModule>, Thrown>, energyLimit: Long, fees: FeeLevels,
                         dappObjectSizes: map<string, int>, transform: Transformer): Option<DappModule>
  {
    if read.Err? || read.value.None? then None
    else
      var app := read.value.value;
      if ProcessingCharge(fees, app) > energyLimit then None
      else
        var transformed := transform(app.classes, RuntimeObjectSizes() + dappObjectSizes);
        if transformed.Err? then None else Some(app.(classes := transformed.value))
  }

  /** The outcome of deploy, step by step: read, processing charge, validation, object sizes,
      transformation, storage, deposit charge. */
  ghost function DeployOutcomeOf(read: Result<Option<DappModule>, Thrown>, energyLimit: Long, fees: FeeLevels,
                                 dappObjectSizes: map<string, int>, transform: Transformer): DeployOutcome
  {
    match read
    case Err(thrown) => Catch(thrown)
    case Ok(None) => Returned(AvmResult(InvalidJar, 0))
    case Ok(Some(app)) =>
      if ProcessingCharge(fees, app) > energyLimit then Returned(AvmResult(OutOfEnergy, 0))
      else
        match transform(app.classes, RuntimeObjectSizes() + dappObjectSizes)
        case Err(thrown) => Catch(thrown)
        case Ok(classes) =>
          if app.mainClass.None? then Catch(OtherThrowable)
          else if DepositCharge(fees, StoredSize(app.mainClass.value, classes)) > energyLimit - ProcessingCharge(fees, app)
          then Catch(OutOfEnergyError)
          else Returned(AvmResult(Success, energyLimit))
  }

  /** deploy. The jar has been read into `read` (an absent module is the null readDapp may
      return); the runtime supplies the address and the energy limit; the fee levels, the DApp
      object sizes and the transformers are inputs. Every exception goes through Catch. */
  method Deploy(store: DappStore, read: Result<Option<DappModule>, Thrown>, address: Bytes, energyLimit: Long,
                fees: FeeLevels, dappObjectSizes: map<string, int>, transform: Transformer)
    returns (outcome: DeployOutcome)
    modifies store
    ensures outcome == DeployOutcomeOf(read, energyLimit, fees, dappObjectSizes, transform)
    ensures store.dirs == match ModuleToStore(read, energyLimit, fees, dappObjectSizes, transform)
                          case None => old(store.dirs)
                          case Some(app) => AfterStore(old(store.dirs), address, app)
  {
    if read.Err? {
      return Catch(read.error);
    }
    if read.value.None? {
      return Returned(AvmResult(InvalidJar, 0));
    }
    var app := read.value.value;
    var helper := new EnergyMeter(energyLimit);
    var charged := helper.Charge(ProcessingCharge(fees, app));
    if !charged {
      return Returned(AvmResult(OutOfEnergy, 0));
    }
    if !ValidateDapp(app) {
      return Returned(AvmResult(InvalidCode, 0));
    }
    var runtimeObjectSizes := RuntimeObjectSizes();
    var allObjectSizes := ComputeObjectSizes(runtimeObjectSizes, dappObjectSizes);
    assert allObjectSizes == runtimeObjectSizes + dappObjectSizes;
    var transformed := transform(app.classes, allObjectSizes);
    if transformed.Err? {
      return Catch(transformed.error);
    }
    app := app.(classes := transformed.value);
    var storedSize := store.StoreTransformedDapp(address, app);
    if storedSize.Err? {
      return Catch(storedSize.error);
    }
    charged := helper.Charge(DepositCharge(fees, storedSize.value));
    if !charged {
      return Catch(OutOfEnergyError);
    }
    outcome := Returned(AvmResult(Success, energyLimit));
  }

  /** Every deploy that returns is charged nothing unless it succeeds, and a success is charged
      the whole energy limit; INVALID_CODE is never returned, since every module validates. */
  lemma DeployResultCodes(read: Result<Option<DappModule>, Thrown>, energyLimit: Long, fees: FeeLevels,
                          dappObjectSizes: map<string, int>, transform: Transformer)
    ensures var outcome := DeployOutcomeOf(read, energyLimit, fees, dappObjectSizes, transform);
            outcome.Returned? ==>
              && outcome.result.code != InvalidCode
              && (outcome.result.code == Success ==> outcome.result.energy == energyLimit)
              && (outcome.result.code != Success ==> outcome.result.energy == 0)
  {
  }

  /** A successful deploy stored the transformed module and both charges fit the limit. */
  lemma DeploySuccessPaid(read: Result<Option<DappModule>, Thrown>, energyLimit: Long, fees: FeeLevels,
                          dappObjectSizes: map<string, int>, transform: Transformer)
    requires DeployOutcomeOf(read, energyLimit, fees, dappObjectSizes, transform).Returned?
    requires DeployOutcomeOf(read, energyLimit, fees, dappObjectSizes, transform).result.code == Success
    ensures var stored := ModuleToStore(read, energyLimit, fees, dappObjectSizes, transform);
            && read.Ok? && read.value.Some? && stored.Some? && stored.value.mainClass.Some?
            && ProcessingCharge(fees, read.value.value)
               + DepositCharge(fees, StoredSize(stored.value.mainClass.value, stored.value.classes)) <= energyLimit
  {
  }

  /** The processing charge comes first: when it does not fit, the result is OUT_OF_ENERGY
      whatever the transformers would do, and nothing is stored. */
  lemma ProcessingChargedFirst(app: DappModule, energyLimit: Long, fees: FeeLevels,
                               dappObjectSizes: map<string, int>, transform: Transformer)
    requires ProcessingCharge(fees, app) > energyLimit
    ensures DeployOutcomeOf(Ok(Some(app)), energyLimit, fees, dappObjectSizes, transform)
            == Returned(AvmResult(OutOfEnergy, 0))
    ensures ModuleToStore(Ok(Some(app)), energyLimit, fees, dappObjectSizes, transform) == None
  {
  }

  /** The deposit is charged after the module is stored: a deposit that does not fit still
      leaves the module in storage while deploy reports OUT_OF_ENERGY. */
  lemma DepositChargedAfterStore(read: Result<Option<DappModule>, Thrown>, energyLimit: Long, fees: FeeLevels,
                                 dappObjectSizes: map<string, int>, transform: Transformer)
    requires read.Ok? && read.value.Some?
    requires var stored := ModuleToStore(read, energyLimit, fees, dappObjectSizes, transform);
             && stored.Some? && stored.value.mainClass.Some?
             && DepositCharge(fees, StoredSize(stored.value.mainClass.value, stored.value.classes))
                > energyLimit - ProcessingCharge(fees, read.value.value)
    ensures DeployOutcomeOf(read, energyLimit, fees, dappObjectSizes, transform) == Returned(AvmResult(OutOfEnergy, 0))
  {
  }

  /** As written, a jar without a manifest, or with one that cannot be read, is read into a
      module with no main class; once the charge fits and the transformers succeed, storing it
      dereferences null and the process exits with status 1 instead of deploy returning
      INVALID_JAR. A manifest without the Main-Class entry exits the same way, earlier. */
  lemma ManifestlessDeployExits(classes: map<string, Bytes>, jarLength: nat, manifest: ManifestLookup,
                                energyLimit: Long, fees: FeeLevels,
                                dappObjectSizes: map<string, int>, transform: Transformer)
    requires !manifest.MainClassKey?
    requires var app := DappModule(None, classes, jarLength, |classes|);
             && ProcessingCharge(fees, app) <= energyLimit
             && transform(classes, RuntimeObjectSizes() + dappObjectSizes).Ok?
    ensures DeployOutcomeOf(ReadDappAsWritten(classes, jarLength, manifest), energyLimit, fees, dappObjectSizes, transform)
            == ProcessExit(1)
  {
  }

  /** With readDapp returning no module when the manifest gives no main class, such a jar is
      rejected as INVALID_JAR, charged nothing, and nothing is stored. */
  lemma ManifestlessDeployRejected(classes: map<string, Bytes>, jarLength: nat, manifest: ManifestLookup,
                                   energyLimit: Long, fees: FeeLevels, dappObjectSizes: map<string, int>,
                                   transform: Transformer)
    requires !manifest.MainClassKey?
    ensures DeployOutcomeOf(ReadDapp(classes, jarLength, manifest), energyLimit, fees, dappObjectSizes, transform)
            == Returned(AvmResult(InvalidJar, 0))
    ensures ModuleToStore(ReadDapp(classes, jarLength, manifest), energyLimit, fees, dappObjectSizes, transform) == None
  {
  }

  /** With the corrected readDapp, deploy only takes the process down when the transformers
      throw an engine fault or an unexpected throwable. */
  lemma DeployExitsOnlyOnTransformerFault(classes: map<string, Bytes>, jarLength: nat, manifest: ManifestLookup,
                                          energyLimit: Long, fees: FeeLevels, dappObjectSizes: map<string, int>,
                                          transform: Transformer)
    requires DeployOutcomeOf(ReadDapp(classes, jarLength, manifest), energyLimit, fees, dappObjectSizes, transform).ProcessExit?
    ensures var t := transform(classes, RuntimeObjectSizes() + dappObjectSizes);
            t.Err? && (t.error == FatalAvmError || t.error == OtherThrowable)
  {
  }
}
