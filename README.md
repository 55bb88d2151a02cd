# AndroidClassLoader — a verified model of Auto.js's dynamic dex loading

Auto.js runs scripts through Rhino. Rhino compiles scripts to Java bytecode, which Android cannot load directly. `com.stardust.autojs.rhino.AndroidClassLoader` handles this:

- it writes bytecode into a jar in a cache directory;
- the dx compiler turns that jar into a dex file;
- a `DexClassLoader` is built on the dex file and registered under the dex file's name, in an insertion-ordered registry;
- later class lookups are answered, in order, by the VM's already-loaded classes, the parent loader, the registered loaders newest first, and finally `findClass`.

All instances share two pieces of static state:

- a static lock serialises compiles into a durable (cached) dex file;
- a static set of thread hash codes marks threads running inside `dexJar`, and `waitIfOnDex` polls it.

Each instance also keeps a sticky `boom` flag, which records that one of its compiles produced an empty dex file.

This project models that loader in Dafny and proves what it does. The model is organised by module:

- `Artifacts` (artifacts.dfy): the values the loader handles. These are classes, dex images (a zero-byte image defines no class), the exceptions as a `Failure` datatype, zip entries, entries of the cache directory, jar files, the compiler's outcome, the parent loader, and a `DexClassLoader`. A `DexClassLoader` looks up its parent first.
- `Naming` (naming.dfy): the names the loader makes up.
  - `String.hashCode` with 32-bit wrap-around, and the decimal rendering of Java integers.
  - Temporary file names `hashCode + "_" + uuid + ".jar"`.
  - The message `path + "_" + lastModified` whose MD5 digest names a jar's cached dex.
  - The zip entry name `name.replace('.', '/') + ".class"`.
- `Registry` (registry.dfy): `mDexClassLoaders`, a `LinkedHashMap`, modelled as a sequence of (name, loader) pairs, oldest first. `remove` followed by `put` is `Put`.
- `Resolution` (resolution.dfy): `Resolve`, the lookup chain of `loadClass` as a function, and the lemmas about its order.
- `Guard` (guard.dfy): the static `lock` and `dexRunningThreads`, as one shared `DexGuard` object.
  - The lock is a hold count; the model is sequential.
  - The object keeps an event log (acquire, release, enter, leave, compiler run). `Valid()` ties its fields to that log.
  - The lemma `DexJarDiscipline` proves the lock and busy-set discipline of one `dexJar` call.
- `ClassLoader` (classloader.dfy): the `AndroidClassLoader` class.
  - Its fields: the registry, `boom`, the cache directory (a map from file name to entry), the classes the VM has already loaded, and the temporary dex files handed to the weak map.
  - Its methods are connected to the functions above: `LoadDex` is stated in terms of `Put`, `LoadClass` in terms of `Resolve`, and `DexJar` in terms of `DexJarEvents`.
- `Scenarios` (scenarios.dfy): sequences of calls a client makes, and what they leave behind.
  - A jar whose compile threw is not recompiled by later loads while its empty dex file stays in the cache directory; those loads register a loader on the empty dex.
  - Two loads of an unchanged jar compile at most once.
  - `boom` stays set after a later successful compile.
  - For a name neither the VM nor the parent knows, a class made by `defineClass` is what `loadClass` then returns.

Inputs the loader cannot compute itself are parameters of the model:

- the bytes the dx compiler writes, or whether it throws (`CompileOutcome`);
- the random UUIDs;
- the MD5 function (a `string -> string` field fixed at construction);
- the calling thread's hash code;
- what the busy set holds after each sleep of `waitIfOnDex` (`stillBusy`);
- the contents of the cache directory when the loader is constructed.

Two facts about the code that shape the model:

- Temporary jars are staged directly in the cache directory. There is no staging subdirectory, and `unloadAllDex` recreates only `libs`.
- Only `defineClass` wraps failures in `FatalLoadingException`. `loadJar` rethrows a `ZipException` as an `IOException` and lets other exceptions through.

## Model

| member | source | states |
|---|---|---|
| Naming.Wrap32 | autojs/src/main/java/com/stardust/autojs/rhino/AndroidClassLoader.java:102 | the 32-bit result lies in Java's `int` range and is congruent to the exact value modulo 2^32 |
| Naming.StringHashCode | autojs/src/main/java/com/stardust/autojs/rhino/AndroidClassLoader.java:102 | `name.hashCode()` is always a Java `int` |
| Naming.Digits | autojs/src/main/java/com/stardust/autojs/rhino/AndroidClassLoader.java:102 | the decimal rendering is nonempty and made only of digits |
| Naming.DigitsRoundTrip | autojs/src/main/java/com/stardust/autojs/rhino/AndroidClassLoader.java:146 | reading the digits of a number back yields the number |
| Naming.Decimal | autojs/src/main/java/com/stardust/autojs/rhino/AndroidClassLoader.java:146 | the rendering of an integer never contains the separator `_` |
| Naming.DecimalRoundTrip | autojs/src/main/java/com/stardust/autojs/rhino/AndroidClassLoader.java:146 | parsing the rendering of any integer, negative ones included, yields that integer |
| Naming.DecimalInjective | autojs/src/main/java/com/stardust/autojs/rhino/AndroidClassLoader.java:146 | two integers with the same rendering are equal |
| Naming.FirstIndexAt | autojs/src/main/java/com/stardust/autojs/rhino/AndroidClassLoader.java:102 | the first `_` of `a + "_" + b` is right after `a` when `a` has none |
| Naming.LastIndexAt | autojs/src/main/java/com/stardust/autojs/rhino/AndroidClassLoader.java:146 | the last `_` of `a + "_" + b` is right after `a` when `b` has none |
| Naming.SplitAtLast | autojs/src/main/java/com/stardust/autojs/rhino/AndroidClassLoader.java:146 | a string `a + "_" + b` with no `_` in `b` determines `a` and `b` |
| Naming.TempFileNamesDistinct | autojs/src/main/java/com/stardust/autojs/rhino/AndroidClassLoader.java:101-102 | temporary files made with different UUIDs have different names, whatever their keys |
| Naming.DexMessageInjective | autojs/src/main/java/com/stardust/autojs/rhino/AndroidClassLoader.java:145-148 | the message whose MD5 names a jar's dex determines the jar's path and modification time, so a modified jar gets a new message |
| Naming.ReplaceChar | autojs/src/main/java/com/stardust/autojs/rhino/AndroidClassLoader.java:86 | `replace('.', '/')` keeps the length and changes exactly the `.` characters, each to `/` |
| Naming.EntryNameRoundTrip | autojs/src/main/java/com/stardust/autojs/rhino/AndroidClassLoader.java:86 | the zip entry of a class is its name with every `.` made `/` plus `.class`, and maps back to that class name |
| Registry.Without | autojs/src/main/java/com/stardust/autojs/rhino/AndroidClassLoader.java:159 | `remove(name)` leaves exactly the entries under other names |
| Registry.WithoutKeepsOrder | autojs/src/main/java/com/stardust/autojs/rhino/AndroidClassLoader.java:159 | `remove(name)` keeps every other entry's loader and its order relative to the rest |
| Registry.WithoutUnique | autojs/src/main/java/com/stardust/autojs/rhino/AndroidClassLoader.java:159 | `remove` keeps the names unique |
| Registry.WithoutAbsent | autojs/src/main/java/com/stardust/autojs/rhino/AndroidClassLoader.java:159 | removing a name that is not registered changes nothing |
| Registry.PutMovesToEnd | autojs/src/main/java/com/stardust/autojs/rhino/AndroidClassLoader.java:158-161 | after remove-then-put the name occurs exactly once, as the last entry, with the new loader; the other entries keep their loaders and relative order; names stay unique |
| Resolution.LatestResolving | autojs/src/main/java/com/stardust/autojs/rhino/AndroidClassLoader.java:311-322 | the reverse scan stops at the newest loader that resolves the name: that loader resolves it and no newer one does; when it finds none, no registered loader resolves it |
| Resolution.ResolveOrder | autojs/src/main/java/com/stardust/autojs/rhino/AndroidClassLoader.java:300-327 | an already-loaded class wins; then the parent's class, whatever is registered; then the class of the newest registered loader defining the name; the lookup fails exactly when none of them has it |
| Resolution.ReloadedUnitWins | autojs/src/main/java/com/stardust/autojs/rhino/AndroidClassLoader.java:157-161 | a unit just (re)registered that defines a name answers later lookups of it that the VM and the parent do not answer |
| Resolution.UnrelatedUnitChangesNothing | autojs/src/main/java/com/stardust/autojs/rhino/AndroidClassLoader.java:311-322 | registering a new unit that does not define a name leaves that name's resolution unchanged |
| Guard.DexGuard.constructor | autojs/src/main/java/com/stardust/autojs/rhino/AndroidClassLoader.java:44-45 | the shared lock starts unheld and the busy set empty |
| Guard.DexGuard.Lock | autojs/src/main/java/com/stardust/autojs/rhino/AndroidClassLoader.java:220 | taking the lock raises the hold count by one and logs an acquisition |
| Guard.DexGuard.Unlock | autojs/src/main/java/com/stardust/autojs/rhino/AndroidClassLoader.java:260 | releasing a held lock lowers the hold count by one and logs a release |
| Guard.DexGuard.PersistThread | autojs/src/main/java/com/stardust/autojs/rhino/AndroidClassLoader.java:185-189 | the current thread's hash joins the busy set; nothing else changes |
| Guard.DexGuard.RemoveThread | autojs/src/main/java/com/stardust/autojs/rhino/AndroidClassLoader.java:191-195 | the current thread's hash leaves the busy set; nothing else changes |
| Guard.DexGuard.NoteCompilerRun | autojs/src/main/java/com/stardust/autojs/rhino/AndroidClassLoader.java:236 | one compiler run is logged; the lock and the busy set are untouched |
| Guard.Step | autojs/src/main/java/com/stardust/autojs/rhino/AndroidClassLoader.java:185-195 | one logged event changes the hold count and the busy set by that event alone |
| Guard.DexJarDiscipline | autojs/src/main/java/com/stardust/autojs/rhino/AndroidClassLoader.java:218-262 | one `dexJar` acquires the lock once for a durable target and never otherwise, releases it exactly as often, compiles once (with the lock held for a durable target), restores the hold count and leaves the thread out of the busy set |
| ClassLoader.ClassEntries | autojs/src/main/java/com/stardust/autojs/rhino/AndroidClassLoader.java:130-137 | the copied entries are exactly the jar's entries that are not directories |
| ClassLoader.PackEntries | autojs/src/main/java/com/stardust/autojs/rhino/AndroidClassLoader.java:130-137 | the header loop copies exactly `ClassEntries` of the jar, in order |
| ClassLoader.AndroidClassLoader.constructor | autojs/src/main/java/com/stardust/autojs/rhino/AndroidClassLoader.java:61-73 | an existing cache directory is emptied unless the parent is an AndroidClassLoader, a missing one is created, `libs` is made; the registry is empty and `boom` is false |
| ClassLoader.AndroidClassLoader.IsBoom | autojs/src/main/java/com/stardust/autojs/rhino/AndroidClassLoader.java:181-183 | true exactly when some compile so far produced an empty dex file |
| ClassLoader.AndroidClassLoader.GenerateTempFile | autojs/src/main/java/com/stardust/autojs/rhino/AndroidClassLoader.java:101-111 | the name is `hashCode_uuid.jar`; with `create` the file exists afterwards (left alone if it was there), otherwise it is gone |
| ClassLoader.AndroidClassLoader.LoadDex | autojs/src/main/java/com/stardust/autojs/rhino/AndroidClassLoader.java:150-163 | a missing file is FileNotFound with the registry unchanged; otherwise the new loader on the file is registered as the last entry, its name nowhere else, via `Put` |
| ClassLoader.AndroidClassLoader.UnloadAllDex | autojs/src/main/java/com/stardust/autojs/rhino/AndroidClassLoader.java:168-179 | the registry is empty, the cache directory exists and holds only the `libs` directory |
| ClassLoader.AndroidClassLoader.WaitIfOnDex | autojs/src/main/java/com/stardust/autojs/rhino/AndroidClassLoader.java:197-213 | null returns at once; at most 50 sleeps; none when the thread is not busy; it sleeps only while the thread is seen busy and stops at the first poll seeing it idle |
| ClassLoader.AndroidClassLoader.StoreOutput | autojs/src/main/java/com/stardust/autojs/rhino/AndroidClassLoader.java:236-255 | the compiler's output is stored under the target name and loaded; a zero-length output sets `boom`; a temporary output is handed off; a throwing compiler leaves everything as it was |
| ClassLoader.AndroidClassLoader.CompileTo | autojs/src/main/java/com/stardust/autojs/rhino/AndroidClassLoader.java:227-255 | a temporary target is created empty before the one compiler run; the cache directory ends as `DexJarFiles` says |
| ClassLoader.AndroidClassLoader.CompileMarked | autojs/src/main/java/com/stardust/autojs/rhino/AndroidClassLoader.java:223-257 | the thread is busy around the compile and not busy afterwards, on success and failure alike |
| ClassLoader.AndroidClassLoader.DexJar | autojs/src/main/java/com/stardust/autojs/rhino/AndroidClassLoader.java:215-263 | the shared state changes exactly by `DexJarEvents` (lock only for a durable target, released, thread not busy on exit); the output file, registry, `boom` and hand-off change as the compile outcome dictates |
| ClassLoader.AndroidClassLoader.DefineClass | autojs/src/main/java/com/stardust/autojs/rhino/AndroidClassLoader.java:79-99 | the bytes are compiled from a one-entry temporary jar (deleted on every exit) into a temporary dex; the result is the new loader's answer for the name, a compiler failure or a missing class being FatalLoading |
| ClassLoader.AndroidClassLoader.LoadJar | autojs/src/main/java/com/stardust/autojs/rhino/AndroidClassLoader.java:113-143 | missing/unreadable jar: FileNotFound, nothing changes; cached dex: registered with no compile; otherwise the dex is created empty, the jar's files are packed and compiled under the lock, and the archive is deleted only on success |
| ClassLoader.AndroidClassLoader.LoadClass | autojs/src/main/java/com/stardust/autojs/rhino/AndroidClassLoader.java:298-330 | the reverse-iterator loop returns exactly `Resolve` of the loaded classes, the parent and the registry |
| Scenarios.LoadJarTwice | autojs/src/main/java/com/stardust/autojs/rhino/AndroidClassLoader.java:118-124 | after any load of a readable jar its dex file is cached; the second load then succeeds and leaves the compile log (compiler runs, lock, busy set) unchanged, and the first load runs the compiler at most once |
| Scenarios.StaleEmptyDexIsReused | autojs/src/main/java/com/stardust/autojs/rhino/AndroidClassLoader.java:118-139 | a compile that throws leaves the empty dex behind; the next load reports success without compiling and registers a loader that defines no class |
| Scenarios.BoomIsSticky | autojs/src/main/java/com/stardust/autojs/rhino/AndroidClassLoader.java:239-240 | after an empty output, `isBoom()` stays true across a later successful compile |
| Scenarios.DefinedClassIsLoadable | autojs/src/main/java/com/stardust/autojs/rhino/AndroidClassLoader.java:91 | for a name neither the VM nor the parent knows, `defineClass` succeeds exactly when the compiled dex defines the name, and then `loadClass` returns the same class |

## Left out

- The dx compiler (`Main.run`) is an input: it writes a dex image of some length and set of classes, or throws. Its result code is not modelled, since the loader only logs it.
- zip4j is left out. A jar is its list of file headers, or None when they cannot be read. A written archive is its list of entries. zip4j's behaviour for an archive that gets no entry, which leaves no file, is not modelled.
- `DexClassLoader` internals are left out. A loader is the path of its dex file and the classes it defines, and it answers parent first (`Artifacts.DexLoad`).
- `createNewFile` and `mkdir` are `ClassLoader.Create`: the name is added when absent and an existing entry is kept.
- Each `AndroidClassLoader` holds its own copy of the cache directory (`cacheFiles`), and its parent's classes are fixed at construction. In the code, a loader whose parent is an AndroidClassLoader keeps the directory's files at construction because it shares that directory with its parent. It then sees dex files the parent writes later, and `parent.loadClass` answers from the parent's registry as it grows. The model does not capture this sharing: a child does not see its parent's later compiles, so a jar its parent already compiled is compiled again by the child, and classes the parent registers later are not found through the parent.
- MD5 (`com.stardust.util.MD5`) is an arbitrary function fixed with the loader. `UUID.randomUUID()` is a parameter of each operation that draws one.
- The UUID drawn in `dexJar` for log messages is left out. So are all logger calls, `dumpClassfileIntoLog`, Base64 and the `Build.VERSION` check, which are diagnostics only.
- Concurrency is left out. The static lock is a hold count, the busy set is sequential state, and `synchronized` blocks are not modelled. Interleavings of other threads are left out, except for what `waitIfOnDex` observes after each sleep, which is the `stillBusy` input.
- `Thread.sleep` timing and interruption are left out: the model counts sleeps. An interrupted sleep is caught and the loop goes on, so `WaitIfOnDex` has no error outcome and always returns.
- The `WeakHashMap` of `DeleteOnFinalizeFile` and deletion on garbage collection are left out. The model only records that a temporary dex file was handed off (`handedOff`).
- I/O failures of `createNewFile`, `mkdir`, `delete`, `deleteFilesOfDir`, and of the zip streams other than unreadable jar headers are left out. The model treats these operations as succeeding.
- Only the cache directory is modelled as a file system. `jar.exists()`, `canRead()` and `lastModified()` are fields of the jar value.
- `findLoadedClass` is the `loadedClasses` map, which the VM owns. The model never changes it.
- `findClass` is the terminal `ClassNotFound`, because `findClass` is not overridden, and `ClassLoader.findClass` always throws.
- `linkClass` and `getLibsDir` are left out, because they do nothing and only return a path.
- A null parent is `None`. The boot loader a real `ClassLoader` falls back to is not modelled.
- Naming.StringHashCode: strings are sequences of Unicode scalar values, not of UTF-16 code units. Characters outside the Basic Multilingual Plane hash differently from Java.
- ClassLoader.AndroidClassLoader.DefineClass: every compiler failure is a FatalLoading failure. In the code, a RuntimeException thrown by dx escapes `defineClass` unwrapped, because only IOException, ZipException and ClassNotFoundException are caught.
- ClassLoader.AndroidClassLoader.LoadJar: every compiler failure is reported as `CompilerFailure`. The code propagates whatever dx throws.
- Scenarios.LoadJarTwice: the scenario requires the temporary archive's name to differ from the dex file's name. The archive's name ends in `.jar` and an MD5 hex digest never does, but the model's MD5 is arbitrary.
- Scenarios.StaleEmptyDexIsReused: the same requirement applies as for `LoadJarTwice`.
