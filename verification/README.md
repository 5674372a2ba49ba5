# AVM deployment core, modelled in Dafny

This project models the deployment path of the Aion Virtual Machine (AVM): a DApp arrives as a jar, is
read into a module (main class, classes, billing counts), billed a processing fee, validated, sized,
transformed, stored on disk under a directory named after the hex-encoded address, and billed a
code-deposit fee. Exceptions are mapped to result codes or to a process exit. Around that it models:

- the kernel's transaction record (`Transaction`), including its argument checks, its factories and
  the basic-cost computation in 32-bit `int` arithmetic;
- the transaction result (`TransactionResult`), including its code taxonomy and how nested results merge;
- the sandbox wrapper for `float[]` (`FloatArray`), including its energy-charged allocation;
- the `IncrementorDApp` test contract, which adds a deploy-time byte to every element of an array.

Modules (one file each):

| file | module | models |
|---|---|---|
| `wrappers.dfy` | `Wrappers` | `Option` (a Java `null`-able value) and `Result` (a value or a thrown exception) |
| `java_types.dfy` | `JavaTypes` | Java `byte`/`int`/`long` ranges, narrowing conversions and wrap-around, `b & 0xFF` |
| `energy_helper.dfy` | `EnergyHelper` | the per-execution energy budget the helper debits |
| `transaction_result.dfy` | `TransactionResults` | `TransactionResult` and its `Code` enum |
| `transaction.dfy` | `Transactions` | `Transaction` |
| `avm_impl.dfy` | `AvmImpl` | `AvmImpl`: hex address encoding, object sizes, `readDapp`, fees, store/load, `deploy` |
| `float_array.dfy` | `ArrayWrapper` | `FloatArray` |
| `incrementor_dapp.dfy` | `IncrementorDApp` | `IncrementorDApp` |

State that Java updates in place is modelled by classes:
- `TransactionResult` and `Transaction` (the timestamp);
- `FloatArray` over an `array<Float>`;
- the file system under the DApps directory, as `DappStore.dirs`, a map from directory name to a map
  from file name to contents;
- the energy meter.

The loops of `byteArrayToString`, `storeTransformedDapp`, `loadTransformedDapp`, `getBasicCost` and
`incrementArray` are methods with loop invariants. Each is proved against a specification function:
`HexString`, `ClassFiles`/`TotalSize`, `RecoveredClasses`, `BasicCost` and `Incremented`. The
properties are then proved about those functions: the hex round trip, the store/load round trip, the
fee formula, and increment composition and inversion.

Where the code and the design description of the system disagree, the model follows the code:
- `deploy` stores the module before it charges the code deposit, so a deposit that does not fit
  leaves the module stored (`AvmImpl.DepositChargedAfterStore`).
- A jar without a usable manifest does not give INVALID_JAR (see Findings).
- A successful deploy reports the whole energy limit as its energy (`AvmImpl.DeployResultCodes`).
- `FloatArray` accesses out of range are Java's own bounds exception, modelled as `IndexOutOfBounds`.

## Model

| member | source | states |
|---|---|---|
| JavaTypes.ToByte | org.aion.avm.core/test/org/aion/avm/core/IncrementorDApp.java:24 | narrowing to `byte` gives the byte congruent to the exact value modulo 256 |
| JavaTypes.ToInt | org.aion.avm.core/src/org/aion/kernel/Transaction.java:159 | 32-bit `int` arithmetic gives the `int` congruent to the exact value modulo 2^32 |
| JavaTypes.UnsignedByte | org.aion.avm.core/src/org/aion/avm/core/AvmImpl.java:189 | `b & 0xFF` is in 0..255 and narrows back to `b` |
| JavaTypes.ToIntAdd | org.aion.avm.core/src/org/aion/kernel/Transaction.java:157-161 | adding to a wrapped running sum wraps like adding to the exact sum, which is what lets the loop accumulate in `int` |
| EnergyHelper.EnergyMeter.constructor | org.aion.avm.core/src/org/aion/avm/core/AvmImpl.java:273 | a fresh helper's budget is the energy limit |
| EnergyHelper.EnergyMeter.Charge | org.aion.avm.core/src/org/aion/avm/core/AvmImpl.java:276-281 | a charge succeeds iff it fits the remaining budget; it is debited exactly when it succeeds |
| TransactionResults.Code.Type | org.aion.avm.core/src/org/aion/kernel/TransactionResult.java:20-89 | each code's declared class: SUCCESS alone is Succeeded, exactly the three REJECTED codes are Rejected |
| TransactionResults.Code.IsSuccess | org.aion.avm.core/src/org/aion/kernel/TransactionResult.java:97-99 | SUCCESS is the only success code |
| TransactionResults.Code.IsRejected | org.aion.avm.core/src/org/aion/kernel/TransactionResult.java:101-103 | exactly REJECTED, REJECTED_INSUFFICIENT_BALANCE and REJECTED_INVALID_NONCE are rejections |
| TransactionResults.Code.IsFailed | org.aion.avm.core/src/org/aion/kernel/TransactionResult.java:105-107 | every code that is neither SUCCESS nor a rejection is a failure |
| TransactionResults.ExactlyOneClass | org.aion.avm.core/src/org/aion/kernel/TransactionResult.java:12-107 | every code is in exactly one of success, rejected and failed |
| TransactionResults.TransactionResult.constructor | org.aion.avm.core/src/org/aion/kernel/TransactionResult.java:163-169 | an empty result is SUCCESS, has used no energy, has no logs and no internal transactions, and its return data and exception are null |
| TransactionResults.TransactionResult.Merge | org.aion.avm.core/src/org/aion/kernel/TransactionResult.java:147-153 | the other result's internal transactions are always appended; its logs are appended only if it succeeded; nothing else changes, on either side |
| TransactionResults.TransactionResult.AddLog | org.aion.avm.core/src/org/aion/kernel/TransactionResult.java:155-157 | the log is appended at the end; nothing else changes |
| TransactionResults.TransactionResult.AddInternalTransaction | org.aion.avm.core/src/org/aion/kernel/TransactionResult.java:159-161 | the internal transaction is appended at the end; nothing else changes |
| TransactionResults.TransactionResult.ClearLogs | org.aion.avm.core/src/org/aion/kernel/TransactionResult.java:211-213 | the logs become empty; nothing else changes |
| TransactionResults.TransactionResult.SetStatusCode | org.aion.avm.core/src/org/aion/kernel/TransactionResult.java:175-177 | only the status code changes, to the given one |
| TransactionResults.TransactionResult.SetReturnData | org.aion.avm.core/src/org/aion/kernel/TransactionResult.java:183-185 | only the return data changes, to the given one |
| TransactionResults.TransactionResult.SetEnergyUsed | org.aion.avm.core/src/org/aion/kernel/TransactionResult.java:191-193 | only the energy used changes, to the given one |
| TransactionResults.TransactionResult.SetStorageRootHash | org.aion.avm.core/src/org/aion/kernel/TransactionResult.java:199-201 | only the storage root hash changes, to the given one |
| TransactionResults.TransactionResult.SetUncaughtException | org.aion.avm.core/src/org/aion/kernel/TransactionResult.java:223-225 | only the uncaught exception changes, to the given one |
| TransactionResults.MergeScenario | org.aion.avm.core/src/org/aion/kernel/TransactionResult.java:147-161 | merging a child result twice, once succeeded and once reverted, keeps its log once and its internal transaction twice |
| Transactions.CheckArguments | org.aion.avm.core/src/org/aion/kernel/Transaction.java:94-103 | arguments are accepted iff the type and sender are given and the target is null exactly for CREATE; a null type and then a null sender are reported first; a CREATE with a target is the IllegalArgumentException; a non-CREATE with a null target is the NullPointerException for `to` |
| Transactions.DataCostCounts | org.aion.avm.core/src/org/aion/kernel/Transaction.java:156-162 | the payload cost is 4 per zero byte plus 64 per other byte, whatever their order |
| Transactions.BasicCostBounds | org.aion.avm.core/src/org/aion/kernel/Transaction.java:156-162 | the basic cost lies between 21000 + 4 and 21000 + 64 per payload byte |
| Transactions.Transaction.Init | org.aion.avm.core/src/org/aion/kernel/Transaction.java:105-113 | every argument is stored as given; the target is null exactly for CREATE |
| Transactions.Transaction.New | org.aion.avm.core/src/org/aion/kernel/Transaction.java:94-114 | throws exactly when the argument checks fail, with the exception they name; otherwise every field holds its argument |
| Transactions.Transaction.NewCreate | org.aion.avm.core/src/org/aion/kernel/Transaction.java:13-15 | succeeds iff the sender is given; the result is a CREATE with no target and the given fields |
| Transactions.Transaction.NewCall | org.aion.avm.core/src/org/aion/kernel/Transaction.java:17-19 | succeeds iff sender and target are given, and a missing sender is reported first; the result is a CALL with the given fields |
| Transactions.Transaction.NewBalanceTransfer | org.aion.avm.core/src/org/aion/kernel/Transaction.java:21-23 | succeeds iff sender and target are given; no payload, and the energy limit is 21000, which equals its basic cost |
| Transactions.Transaction.NewGarbageCollect | org.aion.avm.core/src/org/aion/kernel/Transaction.java:25-29 | succeeds iff the target is given; sender and target are both the target, with value 0 and no payload |
| Transactions.Transaction.GetBasicCost | org.aion.avm.core/src/org/aion/kernel/Transaction.java:156-162 | the result is the exact basic cost wrapped to 32 bits, and is exact whenever that cost fits in an `int` |
| Transactions.Transaction.SetTimestamp | org.aion.avm.core/src/org/aion/kernel/Transaction.java:164-166 | only the timestamp changes, to the given one |
| AvmImpl.HighNibble | org.aion.avm.core/src/org/aion/avm/core/AvmImpl.java:189-190 | `v >>> 4` of the unsigned byte is a digit index below 16 |
| AvmImpl.LowNibble | org.aion.avm.core/src/org/aion/avm/core/AvmImpl.java:191 | `v & 0x0F` of the unsigned byte is a digit index below 16 |
| AvmImpl.HexString | org.aion.avm.core/src/org/aion/avm/core/AvmImpl.java:182-194 | the encoding has two characters per byte |
| AvmImpl.HexStringAt | org.aion.avm.core/src/org/aion/avm/core/AvmImpl.java:188-192 | characters 2i and 2i+1 are the hex digits of the high and the low nibble of byte i |
| AvmImpl.HexRoundTrip | org.aion.avm.core/src/org/aion/avm/core/AvmImpl.java:182-194 | decoding two digits at a time gives back the address: the encoding loses nothing |
| AvmImpl.HexStringInjective | org.aion.avm.core/src/org/aion/avm/core/AvmImpl.java:207-208 | distinct addresses get distinct directory names |
| AvmImpl.HexStringAlphabet | org.aion.avm.core/src/org/aion/avm/core/AvmImpl.java:182 | a directory name holds only lower-case hex digits |
| AvmImpl.ByteArrayToString | org.aion.avm.core/src/org/aion/avm/core/AvmImpl.java:184-194 | the char-array loop produces exactly the hex encoding of the address |
| AvmImpl.RuntimeObjectSizes | org.aion.avm.core/src/org/aion/avm/core/AvmImpl.java:100-108 | sizes are known for exactly Object, Class, Math and String, each 4 |
| AvmImpl.ComputeObjectSizes | org.aion.avm.core/src/org/aion/avm/core/AvmImpl.java:119-132 | every runtime and DApp class has a size; the DApp size wins where both are given; otherwise the runtime size is kept |
| AvmImpl.ValidateDappAcceptsAll | org.aion.avm.core/src/org/aion/avm/core/AvmImpl.java:86-91 | validation accepts every module |
| AvmImpl.ReadDappAsWritten | org.aion.avm.core/src/org/aion/avm/core/AvmImpl.java:369-405 | a module is always produced, never null; only a manifest without the Main-Class key throws, and what it throws is the unexpected kind (a null dereference); the main class is set iff the key is found and is then the key's value; the billing counts are the jar length and the class count |
| AvmImpl.ReadDapp | org.aion.avm.core/src/org/aion/avm/core/AvmImpl.java:54-63 | no module (null) iff the manifest gives no main class; otherwise the module with that main class, the classes and the billing counts |
| AvmImpl.ProcessingCharge | org.aion.avm.core/src/org/aion/avm/core/AvmImpl.java:277-278 | the processing charge is at least the fixed PROCESS fee, and exactly that fee for an empty jar or a zero data rate |
| AvmImpl.ProcessingChargeMonotone | org.aion.avm.core/src/org/aion/avm/core/AvmImpl.java:276-278 | the processing charge is at least the fixed PROCESS fee and never falls as the module grows in size or class count |
| AvmImpl.DepositCharge | org.aion.avm.core/src/org/aion/avm/core/AvmImpl.java:302 | nothing stored, or a zero deposit rate, is charged nothing |
| AvmImpl.DepositChargeAdditive | org.aion.avm.core/src/org/aion/avm/core/AvmImpl.java:302 | the deposit for a stored module is the deposit for its main-class bytes plus that for its class bytes |
| AvmImpl.DepositChargeMonotone | org.aion.avm.core/src/org/aion/avm/core/AvmImpl.java:302 | storing more bytes never costs a smaller deposit |
| AvmImpl.TotalSizeRemove | org.aion.avm.core/src/org/aion/avm/core/AvmImpl.java:217-222 | the total class size is the same whichever class is counted first |
| AvmImpl.SizeSumTotal | org.aion.avm.core/src/org/aion/avm/core/AvmImpl.java:217-222 | adding class sizes up in any order that visits each class once gives the total |
| AvmImpl.ClassFileName | org.aion.avm.core/src/org/aion/avm/core/AvmImpl.java:219 | a class file name is the class name followed by `.class` |
| AvmImpl.IsClassFile | org.aion.avm.core/src/org/aion/avm/core/AvmImpl.java:249 | a name ends in `.class` iff it is some class name with `.class` appended |
| AvmImpl.ClassNameOf | org.aion.avm.core/src/org/aion/avm/core/AvmImpl.java:250 | the class name is six characters shorter than the file name and names that same file |
| AvmImpl.ClassFileNameInverse | org.aion.avm.core/src/org/aion/avm/core/AvmImpl.java:249-250 | cutting the last six characters off a `.class` file name and appending `.class` to a class name are inverse |
| AvmImpl.ClassFilesAt | org.aion.avm.core/src/org/aion/avm/core/AvmImpl.java:218-222 | the class files written are exactly the `.class` names of the classes, each holding its class's bytes |
| AvmImpl.ListedClassFileName | org.aion.avm.core/src/org/aion/avm/core/AvmImpl.java:248 | a class file lands directly in the directory iff its class name has no `/` |
| AvmImpl.RecoveredAt | org.aion.avm.core/src/org/aion/avm/core/AvmImpl.java:246-254 | a class is read back iff its class file is listed in the directory, and it holds that file's bytes |
| AvmImpl.MainFileKept | org.aion.avm.core/src/org/aion/avm/core/AvmImpl.java:211-222 | no class file overwrites MAIN, which holds the main class after the store |
| AvmImpl.StoredClassFile | org.aion.avm.core/src/org/aion/avm/core/AvmImpl.java:216-222 | every `.class` file of a stored module belongs to one of its classes and holds its bytes |
| AvmImpl.FlatClassFile | org.aion.avm.core/src/org/aion/avm/core/AvmImpl.java:219 | a class with a flat name is stored in a listed `.class` file named after it |
| AvmImpl.RecoveredIncludesStored | org.aion.avm.core/src/org/aion/avm/core/AvmImpl.java:246-254 | every flat class stored is read back with its own bytes |
| AvmImpl.RecoveredOnlyStored | org.aion.avm.core/src/org/aion/avm/core/AvmImpl.java:246-254 | nothing is read back from a fresh directory that was not stored |
| AvmImpl.StoreLoadRoundTrip | org.aion.avm.core/src/org/aion/avm/core/AvmImpl.java:205-257 | storing into a fresh directory and loading back gives the same classes and main class, when class names are flat |
| AvmImpl.RecoveredAfterStore | org.aion.avm.core/src/org/aion/avm/core/AvmImpl.java:205-257 | storing over an existing directory reads back the old classes overridden by the new ones, so stale classes survive a re-store |
| AvmImpl.NestedClassesAreLost | org.aion.avm.core/src/org/aion/avm/core/AvmImpl.java:248-253 | a class whose name contains `/` is not read back |
| AvmImpl.WriteClassFiles | org.aion.avm.core/src/org/aion/avm/core/AvmImpl.java:216-222 | the loop writes exactly the class files of all classes and counts exactly their total size |
| AvmImpl.ReadClassFiles | org.aion.avm.core/src/org/aion/avm/core/AvmImpl.java:246-254 | the loop reads back exactly the recovered classes of the directory |
| AvmImpl.Catch | org.aion.avm.core/src/org/aion/avm/core/AvmImpl.java:305-322 | fatal errors end the process with status -1 and unexpected throwables with status 1; every other exception returns a result charged nothing; exactly OutOfEnergyError gives OUT_OF_ENERGY and exactly AvmException gives FAILURE |
| AvmImpl.DappStore.constructor | org.aion.avm.core/src/org/aion/avm/core/AvmImpl.java:50-52 | the model's DApps directory starts with no address directories (see Left out) |
| AvmImpl.DappStore.StoreTransformedDapp | org.aion.avm.core/src/org/aion/avm/core/AvmImpl.java:205-225 | the address directory is created; if there is a main class, MAIN and every class file are written over it and the size returned is the main-class bytes plus all class bytes; with no main class it throws after the directory is made |
| AvmImpl.DappStore.LoadTransformedDapp | org.aion.avm.core/src/org/aion/avm/core/AvmImpl.java:235-257 | null when the address has no directory; a read failure when MAIN is missing; otherwise MAIN and the recovered classes, with zero billing counts |
| AvmImpl.StoreThenLoad | org.aion.avm.core/src/org/aion/avm/core/AvmImpl.java:205-257 | a stored module with flat class names loads back with the same main class and classes; one without a main class fails to load |
| AvmImpl.Deploy | org.aion.avm.core/src/org/aion/avm/core/AvmImpl.java:259-323 | the outcome is the step-by-step outcome of read, processing charge, validation, sizing, transform, store and deposit charge; the store changes only if a module reaches the store step, and then exactly as that store does |
| AvmImpl.DeployResultCodes | org.aion.avm.core/src/org/aion/avm/core/AvmImpl.java:259-323 | INVALID_CODE is never returned; a success reports the energy limit; every other returned code reports 0 |
| AvmImpl.DeploySuccessPaid | org.aion.avm.core/src/org/aion/avm/core/AvmImpl.java:276-304 | a success means a module with a main class was stored and the processing and deposit charges together fit the energy limit |
| AvmImpl.ProcessingChargedFirst | org.aion.avm.core/src/org/aion/avm/core/AvmImpl.java:276-281 | a processing charge over the limit gives OUT_OF_ENERGY whatever the transformers do, and nothing is stored |
| AvmImpl.DepositChargedAfterStore | org.aion.avm.core/src/org/aion/avm/core/AvmImpl.java:298-302 | a deposit that does not fit gives OUT_OF_ENERGY after the module has been stored |
| AvmImpl.ManifestlessDeployExits | org.aion.avm.core/src/org/aion/avm/core/AvmImpl.java:259-323 | with readDapp as written, a jar whose manifest gives no main class ends the process with status 1 instead of returning INVALID_JAR |
| AvmImpl.ManifestlessDeployRejected | org.aion.avm.core/src/org/aion/avm/core/AvmImpl.java:263-266 | with the corrected readDapp, such a jar returns INVALID_JAR with energy 0 and nothing is stored |
| AvmImpl.DeployExitsOnlyOnTransformerFault | org.aion.avm.core/src/org/aion/avm/core/AvmImpl.java:305-322 | with the corrected readDapp, the process ends only when the transformers throw a fatal error or an unexpected throwable |
| ArrayWrapper.InitArrayCharge | org.aion.avm.rt/src/org/aion/avm/arraywrapper/FloatArray.java:10 | the intended charge is a multiple of 32, and negative exactly for a negative size |
| ArrayWrapper.InitArrayChargeMonotone | org.aion.avm.rt/src/org/aion/avm/arraywrapper/FloatArray.java:10 | the intended charge is never negative and never falls as the array grows |
| ArrayWrapper.InitArrayChargeAsWritten | org.aion.avm.rt/src/org/aion/avm/arraywrapper/FloatArray.java:10 | `c * 32` in `int` is the intended charge modulo 2^32 |
| ArrayWrapper.InitArrayChargeAsWrittenSmall | org.aion.avm.rt/src/org/aion/avm/arraywrapper/FloatArray.java:10 | below 2^26 elements the charge as written is the intended one |
| ArrayWrapper.InitArrayChargeAsWrittenWraps | org.aion.avm.rt/src/org/aion/avm/arraywrapper/FloatArray.java:10 | at 2^26 elements the charge as written is negative; at 2^27 it is 0, less than the charge for one element |
| ArrayWrapper.FloatArray.constructor | org.aion.avm.rt/src/org/aion/avm/arraywrapper/FloatArray.java:14-16 | a fresh array of the requested length, filled with 0.0f |
| ArrayWrapper.FloatArray.Wrap | org.aion.avm.rt/src/org/aion/avm/arraywrapper/FloatArray.java:18-20 | the wrapper shares the given array and does not copy it |
| ArrayWrapper.FloatArray.Length | org.aion.avm.rt/src/org/aion/avm/arraywrapper/FloatArray.java:22-24 | the length of the wrapped array |
| ArrayWrapper.FloatArray.Get | org.aion.avm.rt/src/org/aion/avm/arraywrapper/FloatArray.java:26-28 | the element at an index in range; an index out of range throws, and only then |
| ArrayWrapper.FloatArray.Set | org.aion.avm.rt/src/org/aion/avm/arraywrapper/FloatArray.java:30-32 | an index in range gets the value and every other element is unchanged; an index out of range throws and changes nothing |
| ArrayWrapper.InitArray | org.aion.avm.rt/src/org/aion/avm/arraywrapper/FloatArray.java:9-12 | the charge comes first and, if it does not fit, nothing is allocated or debited; a negative size fails after the charge; an array is produced exactly when the charge fits and the size is not negative, and it is a fresh zeroed array of size c |
| ArrayWrapper.SharedWrite | org.aion.avm.rt/src/org/aion/avm/arraywrapper/FloatArray.java:18-32 | a write through one wrapper is seen through another wrapper of the same array, and nothing else changes |
| IncrementorDApp.IncrementBy | org.aion.avm.core/test/org/aion/avm/core/IncrementorDApp.java:13-16 | the increment is the first byte of the deploy data, and there is none without deploy data |
| IncrementorDApp.IncrementArray | org.aion.avm.core/test/org/aion/avm/core/IncrementorDApp.java:22-27 | every element is incremented in place, with byte wrap-around, and the same array is returned |
| IncrementorDApp.IncrementedAt | org.aion.avm.core/test/org/aion/avm/core/IncrementorDApp.java:24 | the length is kept and each element moves by the increment modulo 256 |
| IncrementorDApp.IncrementByZero | org.aion.avm.core/test/org/aion/avm/core/IncrementorDApp.java:22-27 | an increment of 0 changes nothing |
| IncrementorDApp.IncrementCompose | org.aion.avm.core/test/org/aion/avm/core/IncrementorDApp.java:22-27 | two increments equal one increment by their wrapped sum |
| IncrementorDApp.IncrementInverse | org.aion.avm.core/test/org/aion/avm/core/IncrementorDApp.java:22-27 | incrementing by the two's-complement negation undoes an increment |

## Left out

- The bytecode transformers are not modelled: `transformClasses`, class metering, stack tracking, shadowing, exception wrapping and array wrapping. `Deploy` takes their effect as a function parameter that may throw.
- The per-class heap-size calculation is not modelled. `Deploy` takes the DApp object sizes as a parameter.
- Class hierarchy forests, jar parsing and the manifest search are not modelled. The classes, the jar length and the outcome of the manifest search (`ManifestLookup`) are inputs.
- Helper instantiation and class loading (`mapIncludingHelperBytecode`, `AvmClassLoader`, `instantiateHelper`) are not modelled. The helper's budget is an `EnergyMeter` passed explicitly.
- `run` is not modelled: it loads classes by reflection and invokes DApp code. Only the `loadTransformedDapp` step it uses is modelled.
- `IncrementorDApp.main` (ABI decoding and dispatch) is not modelled.
- AvmImpl.DappStore.constructor: starts from an empty DApps directory. On disk `mkdirs` keeps the address directories of earlier runs; the store and load contracts hold for any starting `dirs`, but the lemmas about a fresh store do not describe a directory that already has content.
- The file system is a map from directory to file map. A write that fails with an I/O error is not modelled. A missing MAIN is the only read failure modelled.
- `dir.list()` is modelled as the names without a `/`. A class whose name has a package path lands in a subdirectory and is therefore not listed.
- The main class name is stored as the bytes it is given. The platform charset of `getBytes()` and `new String(...)` is not modelled.
- `Transaction` value and data are never null here: the Java constructor does not check them. The random hash of the eight-argument constructor is a parameter. `toString` and the getters (which return the fields) are not modelled.
- `TransactionResult.rejectInternalTransactions`, `toString` and the getters are not modelled. Logs, internal transactions and causes are type parameters, because those classes are not part of this model.
- EnergyHelper.EnergyMeter.Charge: the budget semantics of the helper are not part of this model. A charge that does not fit fails and debits nothing.
- The fee levels of the bytecode fee schedule are parameters (`FeeLevels`). The `long` fee arithmetic in `deploy` is unbounded here, so overflow of the processing and deposit charges is not modelled.
- ArrayWrapper.FloatArray.constructor: takes a `nat` length. A negative length is only reachable through `InitArray`, which reports it as `NegativeArraySize`.
- ArrayWrapper.InitArray: charges the corrected, unbounded `c * 32` (see Findings). The wrapping charge as written is `InitArrayChargeAsWritten`.
- Float elements are opaque 32-bit patterns; no floating-point arithmetic is modelled.
- AvmImpl.Deploy: takes the corrected `ReadDapp` or `ReadDappAsWritten` as its `read` input. With the code as written, the INVALID_JAR branch is unreachable.
- `HexDecode` has no counterpart in the Java code. It is the inverse used to state that the address encoding is injective.

## Findings

| source | as written | input that shows it | evidently intended | confidence | as-written member | corrected member |
|---|---|---|---|---|---|---|
| org.aion.avm.core/src/org/aion/avm/core/AvmImpl.java:369-391 | `readFromJar` always builds a module, so `readDapp` never returns the null that `deploy` checks for. With no manifest, or an unreadable one, the main class is null. `storeTransformedDapp` then dereferences it, and the catch-all exits the process with status 1. | a jar with no `MANIFEST.MF`, a processing charge within the limit and transformers that succeed | `readDapp` returns null for a jar whose manifest gives no main class, and `deploy` returns INVALID_JAR with energy 0 | not executed | AvmImpl.ReadDappAsWritten / AvmImpl.ManifestlessDeployExits | AvmImpl.ReadDapp / AvmImpl.ManifestlessDeployRejected |
| org.aion.avm.rt/src/org/aion/avm/arraywrapper/FloatArray.java:10 | the allocation charge `c * 32` is evaluated in 32-bit `int` and wraps | c = 0x400_0000 is charged -2^31; c = 0x800_0000 (a 512 MiB array) is charged 0 | a charge of 32 per element that never decreases as the array grows | not executed | ArrayWrapper.InitArrayChargeAsWritten / ArrayWrapper.InitArrayChargeAsWrittenWraps | ArrayWrapper.InitArrayCharge / ArrayWrapper.InitArrayChargeMonotone |
