/** Call sequences a client of AndroidClassLoader goes through, and what the
    loader's state is after them. */
module Scenarios {

  import opened Artifacts
  import opened Naming
  import opened Registry
  import opened Resolution
  import opened Guard
  import opened ClassLoader

  /** Loading the same unmodified jar a second time never runs the compiler:
      the first call leaves the dex file named after the jar's path and
      modification time in the cache directory, whatever happened to it, and the
      second call loads that file without touching the shared state: the
      compiler runs at most once, and only in the first call.
      (The temporary archive's name ends in ".jar", which no MD5 digest does.) */
  method LoadJarTwice(acl: AndroidClassLoader, jar: JarFile, uuid1: string, uuid2: string,
                      thread: int, run1: CompileOutcome, run2: CompileOutcome)
    returns (r1: Result<()>, r2: Result<()>, ghost afterFirst: seq<GuardEvent>)
    requires acl.Valid()
    requires jar.onDisk && jar.canRead
    requires TempFileName(jar.path, uuid1) != DexFileName(acl.md5, jar.path, jar.lastModified)
    modifies acl.guard, acl`cacheFiles, acl`dexLoaders, acl`boom, acl`emptyOutputs, acl`handedOff
    ensures acl.Valid()
    ensures r2 == Ok(())
    ensures DexFileName(acl.md5, jar.path, jar.lastModified) in acl.cacheFiles
    ensures CompilerRuns(afterFirst) <= CompilerRuns(old(acl.guard.log)) + 1
    ensures acl.guard.log == afterFirst
  {
    r1 := acl.LoadJar(jar, uuid1, thread, run1);
    afterFirst := acl.guard.log;
    if afterFirst != old(acl.guard.log) {
      DexJarDiscipline(old(acl.guard.log), true, thread);
    }
    r2 := acl.LoadJar(jar, uuid2, thread, run2);
  }

  /** A compile of a jar that throws leaves the freshly created, empty dex file
      behind; the next `loadJar` of the unchanged jar reports success without
      compiling and registers a loader on that empty file, which defines no
      class. Only removing the file (`unloadAllDex`, or a new loader that empties
      the directory) lets a later load compile the jar again. */
  method StaleEmptyDexIsReused(acl: AndroidClassLoader, jar: JarFile, uuid1: string, uuid2: string,
                               thread: int, run2: CompileOutcome)
    returns (r1: Result<()>, r2: Result<()>)
    requires acl.Valid()
    requires jar.onDisk && jar.canRead && jar.headers.Some?
    requires DexFileName(acl.md5, jar.path, jar.lastModified) !in acl.cacheFiles
    requires TempFileName(jar.path, uuid1) != DexFileName(acl.md5, jar.path, jar.lastModified)
    modifies acl.guard, acl`cacheFiles, acl`dexLoaders, acl`boom, acl`emptyOutputs, acl`handedOff
    ensures acl.Valid()
    ensures r1 == Err(CompilerFailure) && r2 == Ok(())
    ensures CompilerRuns(acl.guard.log) == CompilerRuns(old(acl.guard.log)) + 1
    ensures var dex := DexFileName(acl.md5, jar.path, jar.lastModified);
      |acl.dexLoaders| > 0 && acl.dexLoaders[|acl.dexLoaders| - 1] == (dex, DexLoader(acl.CachePath(dex), map[]))
  {
    var dex := DexFileName(acl.md5, jar.path, jar.lastModified);
    var cls := TempFileName(jar.path, uuid1);
    ghost var staged := Create(acl.cacheFiles, dex, EmptyFile) - {cls};
    assert staged[dex] == EmptyFile;
    r1 := acl.LoadJar(jar, uuid1, thread, CompilerThrew);
    DexJarDiscipline(old(acl.guard.log), true, thread);
    assert acl.cacheFiles == staged[cls := Archive(ClassEntries(jar.headers.value))];
    assert acl.cacheFiles[dex] == EmptyFile;
    ghost var between := acl.dexLoaders;
    ghost var logBetween := acl.guard.log;
    r2 := acl.LoadJar(jar, uuid2, thread, run2);
    assert acl.guard.log == logBetween;
    PutMovesToEnd(between, dex, DexLoader(acl.CachePath(dex), map[]));
  }

  /** Once a compile produced an empty dex file, `isBoom()` stays true, even
      after a later compile that succeeds. */
  method BoomIsSticky(acl: AndroidClassLoader, name1: string, name2: string, data1: seq<bv8>, data2: seq<bv8>,
                      uuids: seq<string>, thread: int, later: DexOutput)
    returns (boom: bool)
    requires acl.Valid() && |uuids| == 4
    modifies acl.guard, acl`cacheFiles, acl`dexLoaders, acl`boom, acl`emptyOutputs, acl`handedOff
    ensures acl.Valid()
    ensures boom
  {
    var _ := acl.DefineClass(name1, data1, uuids[0], uuids[1], thread, Compiled(DexImage(0, map[])));
    var _ := acl.DefineClass(name2, data2, uuids[2], uuids[3], thread, Compiled(later));
    boom := acl.IsBoom();
  }

  /** For a name neither the VM nor the parent knows, a class defined through
      `defineClass` is what `loadClass` returns for that name afterwards. (For a
      name the parent knows, both return the parent's class.) */
  method DefinedClassIsLoadable(acl: AndroidClassLoader, name: string, data: seq<bv8>,
                                classUuid: string, dexUuid: string, thread: int, image: DexOutput)
    returns (defined: Result<JClass>, loaded: Result<JClass>)
    requires acl.Valid()
    requires name !in acl.loadedClasses && ParentLoad(acl.parent, name).None?
    modifies acl.guard, acl`cacheFiles, acl`dexLoaders, acl`boom, acl`emptyOutputs, acl`handedOff
    ensures acl.Valid()
    ensures defined.Ok? <==> name in image.classes
    ensures defined.Ok? ==> loaded == defined
  {
    defined := acl.DefineClass(name, data, classUuid, dexUuid, thread, Compiled(image));
    var dex := acl.TempDexName(TempFileName(name, classUuid), dexUuid);
    if name in image.classes {
      ReloadedUnitWins(acl.loadedClasses, acl.parent, old(acl.dexLoaders), dex,
                       DexLoader(acl.CachePath(dex), image.classes), name);
    }
    loaded := acl.LoadClass(name);
  }
}
