/** AndroidClassLoader: compiles Java bytecode to dex files in a cache directory,
    registers a DexClassLoader per dex file and resolves classes through the
    parent and the registered loaders. */
module ClassLoader {

  import opened Artifacts
  import opened Naming
  import opened Registry
  import opened Resolution
  import opened Guard

  /** `waitIfOnDex` polls the busy set at most this often. */
  const WaitLimit: nat := 50

  /** The native-library subdirectory of the cache directory. */
  const LibsDir: string := "libs"

  /** `dexJar`'s output: the durable dex file `loadJar` names (a non-null
      `dexFile`) or a temporary one made with the given UUID (a null `dexFile`). */
  datatype DexTarget = Durable(name: string) | Temporary(uuid: string)

  /** `createNewFile` and `mkdir`: make `name` unless something is there already. */
  function Create(files: map<string, FileEntry>, name: string, entry: FileEntry): map<string, FileEntry>
  {
    if name in files then files else files[name := entry]
  }

  /** The jar entries `loadJar` copies into its temporary archive: every entry
      that is not a directory, in the jar's order. */
  function ClassEntries(headers: seq<ZipEntry>): (r: seq<ZipEntry>)
    ensures forall e :: e in r <==> e in headers && !e.isDirectory
    ensures |r| <= |headers|
  {
    if headers == [] then []
    else ClassEntries(headers[..|headers| - 1])
         + (if headers[|headers| - 1].isDirectory then [] else [headers[|headers| - 1]])
  }

  /** `loadJar`'s copy loop: every file header of the jar that is not a
      directory is added to the temporary archive, in order. */
  method PackEntries(headers: seq<ZipEntry>) returns (packed: seq<ZipEntry>)
    ensures packed == ClassEntries(headers)
  {
    packed := [];
    var i := 0;
    while i < |headers|
      invariant 0 <= i <= |headers|
      invariant packed == ClassEntries(headers[..i])
    {
      assert headers[..i + 1][..i] == headers[..i];
      if !headers[i].isDirectory {
        packed := packed + [headers[i]];
      }
      i := i + 1;
    }
    assert headers[..i] == headers;
  }

  /** The cache directory after one `dexJar` run with output file `out`: a
      temporary output is first created empty; the compiler then writes it,
      unless it threw. */
  function DexJarFiles(files: map<string, FileEntry>, out: string, temporary: bool, run: CompileOutcome): map<string, FileEntry>
  {
    var staged := if temporary then Create(files, out, EmptyFile) else files;
    if run.Compiled? then staged[out := Regular(run.image)] else staged
  }

  class AndroidClassLoader {
    const guard: DexGuard                 // the static lock and dexRunningThreads
    const parent: Option<ParentLoader>
    const cacheDirPath: string            // mCacheDir
    const md5: string -> string           // com.stardust.util.MD5.md5

    var boom: bool
    ghost var emptyOutputs: nat           // how many compiles produced an empty dex
    var dexLoaders: Entries               // mDexClassLoaders
    var cacheDirExists: bool
    var cacheFiles: map<string, FileEntry>  // the entries of mCacheDir, by name
    var loadedClasses: map<string, JClass>  // what findLoadedClass knows
    var handedOff: seq<string>            // temporary dex files given to weakDexFileMap

    ghost predicate Valid()
      reads this, guard
    {
      UniqueNames(dexLoaders) && guard.Valid() && (boom <==> emptyOutputs > 0)
    }

    /** `new File(mCacheDir, name).getPath()`. */
    function CachePath(name: string): string
    {
      cacheDirPath + "/" + name
    }

    /** `new File(mCacheDir, name)` as `loadDex` sees it. */
    function CacheFile(name: string): DexFileArg
      reads this
    {
      DexFileArg(name, CachePath(name), if name in cacheFiles then Some(cacheFiles[name]) else None)
    }

    /** The temporary dex file `dexJar` compiles the archive `classFile` into. */
    function TempDexName(classFile: string, uuid: string): string
    {
      TempFileName("dex-" + CachePath(classFile), uuid)
    }

    function OutputName(classFile: string, target: DexTarget): string
    {
      match target
      case Durable(name) => name
      case Temporary(uuid) => TempDexName(classFile, uuid)
    }

    /** `AndroidClassLoader(parent, dir)`. `existing` is what `dir` holds, None
        when it does not exist. A directory that exists is emptied unless the
        parent is itself an AndroidClassLoader; `libs` is then made. */
    constructor (parent: Option<ParentLoader>, dir: string, existing: Option<map<string, FileEntry>>,
                 guard: DexGuard, md5: string -> string)
      requires guard.Valid()
      ensures Valid()
      ensures this.guard == guard && this.parent == parent && cacheDirPath == dir && this.md5 == md5
      ensures !boom && dexLoaders == [] && loadedClasses == map[] && handedOff == []
      ensures cacheDirExists
      ensures cacheFiles == Create(if existing.Some? && parent.Some? && parent.value.isAndroidClassLoader
                                   then existing.value else map[], LibsDir, Directory)
    {
      this.guard := guard;
      this.parent := parent;
      cacheDirPath := dir;
      this.md5 := md5;
      boom := false;
      emptyOutputs := 0;
      dexLoaders := [];
      loadedClasses := map[];
      handedOff := [];
      var files: map<string, FileEntry> := map[];
      if existing.Some? {
        if !(parent.Some? && parent.value.isAndroidClassLoader) {
          files := map[];  // PFiles.deleteFilesOfDir(dir)
        } else {
          files := existing.value;
        }
      }
      cacheDirExists := true;  // dir exists, or dir.mkdirs()
      cacheFiles := Create(files, LibsDir, Directory);
    }

    /** `isBoom()`: whether some compile has ever produced an empty dex file. */
    function IsBoom(): (r: bool)
      reads this, guard
      requires Valid()
      ensures r <==> emptyOutputs > 0
    {
      boom
    }

    /** `generateTempFile(key, create)` with the random UUID `uuid`: the file is
        created empty (if absent) or deleted (if present). */
    method GenerateTempFile(key: string, uuid: string, create: bool) returns (name: string)
      modifies this`cacheFiles
      ensures name == TempFileName(key, uuid)
      ensures cacheFiles == if create then Create(old(cacheFiles), name, EmptyFile) else old(cacheFiles) - {name}
    {
      name := TempFileName(key, uuid);
      if create {
        if name !in cacheFiles {
          cacheFiles := cacheFiles[name := EmptyFile];
        }
      } else {
        cacheFiles := cacheFiles - {name};
      }
    }

    /** `loadDex(file)`: a missing file is a FileNotFoundException and changes
        nothing; otherwise a DexClassLoader on it replaces any loader under the
        file's name and becomes the newest entry. */
    method LoadDex(file: DexFileArg) returns (r: Result<DexLoader>)
      requires Valid()
      modifies this`dexLoaders
      ensures Valid()
      ensures file.entry.None? ==> r == Err(FileNotFound(file.path)) && dexLoaders == old(dexLoaders)
      ensures file.entry.Some? ==>
                && r == Ok(DexLoader(file.path, ClassesOf(file.entry.value)))
                && dexLoaders == Put(old(dexLoaders), file.name, r.value)
                && dexLoaders[|dexLoaders| - 1] == (file.name, r.value)
                && forall i :: 0 <= i < |dexLoaders| - 1 ==> dexLoaders[i].0 != file.name
    {
      if file.entry.None? {
        return Err(FileNotFound(file.path));
      }
      var loader := DexLoader(file.path, ClassesOf(file.entry.value));
      PutMovesToEnd(dexLoaders, file.name, loader);
      dexLoaders := Without(dexLoaders, file.name);
      dexLoaders := dexLoaders + [(file.name, loader)];
      r := Ok(loader);
    }

    /** `unloadAllDex()`: empties the cache directory and the registry, then
        makes sure the directory and its `libs` subdirectory exist. */
    method UnloadAllDex()
      requires Valid()
      modifies this`cacheFiles, this`dexLoaders, this`cacheDirExists
      ensures Valid()
      ensures dexLoaders == []
      ensures cacheDirExists && cacheFiles == map[LibsDir := Directory]
    {
      cacheFiles := map[];  // PFiles.deleteFilesOfDir(mCacheDir)
      dexLoaders := [];
      // No operation of the model removes the directory itself, so in the model
      // this branch is never taken; in the code it recreates a directory that
      // something outside the loader deleted.
      if !cacheDirExists {
        cacheDirExists := true;
      }
      cacheFiles := Create(cacheFiles, LibsDir, Directory);
    }

    /** Whether the thread with hash code `hash` is in the busy set at poll `k`:
        the set as it is now for the first poll, then as `stillBusy` reports it
        after each sleep (other threads change the set meanwhile). */
    function BusyAtPoll(hash: int, stillBusy: nat -> bool, k: nat): bool
      reads this, guard
    {
      if k == 0 then hash in guard.running else stillBusy(k)
    }

    /** `waitIfOnDex(thread)`, returning how often it slept. It returns at once
        for null, never sleeps more than WaitLimit times, sleeps as long as the
        thread is seen busy, and stops at the first poll that sees it idle. */
    method WaitIfOnDex(thread: Option<int>, stillBusy: nat -> bool) returns (sleeps: nat)
      ensures thread.None? ==> sleeps == 0
      ensures sleeps <= WaitLimit
      ensures thread.Some? && thread.value !in guard.running ==> sleeps == 0
      ensures thread.Some? ==> forall k :: 0 <= k < sleeps ==> BusyAtPoll(thread.value, stillBusy, k)
      ensures thread.Some? && sleeps < WaitLimit ==> !BusyAtPoll(thread.value, stillBusy, sleeps)
    {
      if thread.None? {
        return 0;
      }
      var hash := thread.value;
      var limit: int := WaitLimit;
      sleeps := 0;
      while BusyAtPoll(hash, stillBusy, sleeps) && limit > 0
        invariant 0 <= limit <= WaitLimit && sleeps == WaitLimit - limit
        invariant forall k :: 0 <= k < sleeps ==> BusyAtPoll(hash, stillBusy, k)
      {
        limit := limit - 1;
        // Thread.sleep(100); an InterruptedException is caught and the loop goes on
        sleeps := sleeps + 1;
      }
    }

    /** The part of `dexJar` after the compiler ran: the output file holds what
        it wrote; a zero-length output sets `boom`; a loader is registered on the
        output; a temporary output is handed off for deletion on finalize. */
    method StoreOutput(dexFile: string, isTmpDex: bool, run: CompileOutcome) returns (r: Result<DexLoader>)
      requires Valid()
      modifies this`cacheFiles, this`dexLoaders, this`boom, this`emptyOutputs, this`handedOff
      ensures Valid()
      ensures cacheFiles == if run.Compiled? then old(cacheFiles)[dexFile := Regular(run.image)] else old(cacheFiles)
      ensures run.CompilerThrew? ==>
                r == Err(CompilerFailure) && dexLoaders == old(dexLoaders)
                && boom == old(boom) && emptyOutputs == old(emptyOutputs) && handedOff == old(handedOff)
      ensures run.Compiled? ==>
                && r == Ok(DexLoader(CachePath(dexFile), run.image.classes))
                && dexLoaders == Put(old(dexLoaders), dexFile, r.value)
                && boom == (old(boom) || run.image.length == 0)
                && emptyOutputs == old(emptyOutputs) + (if run.image.length == 0 then 1 else 0)
                && handedOff == old(handedOff) + (if isTmpDex then [dexFile] else [])
    {
      match run {
        case CompilerThrew =>
          r := Err(CompilerFailure);
        case Compiled(image) =>
          cacheFiles := cacheFiles[dexFile := Regular(image)];
          if image.length == 0 {
            boom := true;
            emptyOutputs := emptyOutputs + 1;
          }
          r := LoadDex(CacheFile(dexFile));
          if isTmpDex {
            handedOff := handedOff + [dexFile];
          }
      }
    }

    /** The body of `dexJar`'s `try`: a temporary output file is created empty,
        then the compiler runs and its output is stored and loaded. */
    method CompileTo(classFile: string, target: DexTarget, run: CompileOutcome)
      returns (r: Result<DexLoader>)
      requires Valid()
      modifies guard, this`cacheFiles, this`dexLoaders, this`boom, this`emptyOutputs, this`handedOff
      ensures Valid()
      ensures guard.log == old(guard.log) + [RunCompiler]
      ensures guard.running == old(guard.running)
      ensures guard.holdCount == old(guard.holdCount)
      ensures var out := OutputName(classFile, target);
        cacheFiles == DexJarFiles(old(cacheFiles), out, target.Temporary?, run)
      ensures run.CompilerThrew? ==>
                r == Err(CompilerFailure) && dexLoaders == old(dexLoaders)
                && boom == old(boom) && emptyOutputs == old(emptyOutputs) && handedOff == old(handedOff)
      ensures run.Compiled? ==>
                var out := OutputName(classFile, target);
                && r == Ok(DexLoader(CachePath(out), run.image.classes))
                && dexLoaders == Put(old(dexLoaders), out, r.value)
                && boom == (old(boom) || run.image.length == 0)
                && emptyOutputs == old(emptyOutputs) + (if run.image.length == 0 then 1 else 0)
                && handedOff == old(handedOff) + (if target.Temporary? then [out] else [])
    {
      var isTmpDex := target.Temporary?;
      var dexFile: string;
      if isTmpDex {
        dexFile := GenerateTempFile("dex-" + CachePath(classFile), target.uuid, true);
      } else {
        dexFile := target.name;
      }
      guard.NoteCompilerRun();
      r := StoreOutput(dexFile, isTmpDex, run);
    }

    /** The `try`/`finally` of `dexJar`: the thread is marked busy around the
        compile and unmarked on every exit. */
    method CompileMarked(classFile: string, target: DexTarget, thread: int, run: CompileOutcome)
      returns (r: Result<DexLoader>)
      requires Valid()
      modifies guard, this`cacheFiles, this`dexLoaders, this`boom, this`emptyOutputs, this`handedOff
      ensures Valid()
      ensures guard.log == old(guard.log) + [Enter(thread), RunCompiler, Leave(thread)]
      ensures guard.running == old(guard.running) - {thread}
      ensures guard.holdCount == old(guard.holdCount)
      ensures var out := OutputName(classFile, target);
        cacheFiles == DexJarFiles(old(cacheFiles), out, target.Temporary?, run)
      ensures run.CompilerThrew? ==>
                r == Err(CompilerFailure) && dexLoaders == old(dexLoaders)
                && boom == old(boom) && emptyOutputs == old(emptyOutputs) && handedOff == old(handedOff)
      ensures run.Compiled? ==>
                var out := OutputName(classFile, target);
                && r == Ok(DexLoader(CachePath(out), run.image.classes))
                && dexLoaders == Put(old(dexLoaders), out, r.value)
                && boom == (old(boom) || run.image.length == 0)
                && emptyOutputs == old(emptyOutputs) + (if run.image.length == 0 then 1 else 0)
                && handedOff == old(handedOff) + (if target.Temporary? then [out] else [])
    {
      guard.PersistThread(thread);
      r := CompileTo(classFile, target, run);
      guard.RemoveThread(thread);
    }

    /** `dexJar(classFile, dexFile)`: compiles the archive `classFile` into the
        target dex file and registers a loader on it. The lock is held around
        everything for a durable target only; the thread is in the busy set
        around the compile and out of it on every exit; a zero-length output
        sets `boom`; a temporary output is handed off for deletion on finalize. */
    method DexJar(classFile: string, target: DexTarget, thread: int, run: CompileOutcome)
      returns (r: Result<DexLoader>)
      requires Valid()
      modifies guard, this`cacheFiles, this`dexLoaders, this`boom, this`emptyOutputs, this`handedOff
      ensures Valid()
      ensures guard.log == old(guard.log) + DexJarEvents(target.Durable?, thread)
      ensures guard.running == old(guard.running) - {thread}
      ensures guard.holdCount == old(guard.holdCount)
      ensures var out := OutputName(classFile, target);
        cacheFiles == DexJarFiles(old(cacheFiles), out, target.Temporary?, run)
      ensures run.CompilerThrew? ==>
                r == Err(CompilerFailure) && dexLoaders == old(dexLoaders)
                && boom == old(boom) && emptyOutputs == old(emptyOutputs) && handedOff == old(handedOff)
      ensures run.Compiled? ==>
                var out := OutputName(classFile, target);
                && r == Ok(DexLoader(CachePath(out), run.image.classes))
                && dexLoaders == Put(old(dexLoaders), out, r.value)
                && boom == (old(boom) || run.image.length == 0)
                && emptyOutputs == old(emptyOutputs) + (if run.image.length == 0 then 1 else 0)
                && handedOff == old(handedOff) + (if target.Temporary? then [out] else [])
    {
      var locked := false;
      if target.Durable? {
        guard.Lock();
        locked := true;
      }
      r := CompileMarked(classFile, target, thread, run);
      if locked {
        guard.Unlock();
      }
    }

    /** `defineClass(name, data)`: writes `data` as the one entry of a fresh
        temporary jar, compiles it to a temporary dex and loads `name` from it.
        The jar is deleted on every exit; failures become FatalLoadingException. */
    method DefineClass(name: string, data: seq<bv8>, classUuid: string, dexUuid: string,
                       thread: int, run: CompileOutcome)
      returns (r: Result<JClass>)
      requires Valid()
      modifies guard, this`cacheFiles, this`dexLoaders, this`boom, this`emptyOutputs, this`handedOff
      ensures Valid()
      ensures guard.log == old(guard.log) + DexJarEvents(false, thread)
      ensures guard.running == old(guard.running) - {thread}
      ensures guard.holdCount == old(guard.holdCount)
      ensures var cls := TempFileName(name, classUuid);
        var jar := (old(cacheFiles) - {cls})[cls := Archive([ZipEntry(EntryName(name), false, data)])];
        cacheFiles == DexJarFiles(jar, TempDexName(cls, dexUuid), true, run) - {cls}
      ensures run.CompilerThrew? ==>
                r == Err(FatalLoading(CompilerFailure)) && dexLoaders == old(dexLoaders)
                && boom == old(boom) && handedOff == old(handedOff)
      ensures run.Compiled? ==>
                var dex := TempDexName(TempFileName(name, classUuid), dexUuid);
                var loader := DexLoader(CachePath(dex), run.image.classes);
                && dexLoaders == Put(old(dexLoaders), dex, loader)
                && r == (match DexLoad(loader, parent, name)
                         case Some(c) => Ok(c)
                         case None => Err(FatalLoading(ClassNotFound(name))))
                && boom == (old(boom) || run.image.length == 0)
                && handedOff == old(handedOff) + [dex]
    {
      var classFile := GenerateTempFile(name, classUuid, false);
      // new ZipFile(classFile).addStream(data) under the entry name of the class
      cacheFiles := cacheFiles[classFile := Archive([ZipEntry(EntryName(name), false, data)])];
      var loaded := DexJar(classFile, Temporary(dexUuid), thread, run);
      match loaded {
        case Err(e) =>
          r := Err(FatalLoading(e));
        case Ok(loader) =>
          r := match DexLoad(loader, parent, name)
               case Some(c) => Ok(c)
               case None => Err(FatalLoading(ClassNotFound(name)));
      }
      // finally
      cacheFiles := cacheFiles - {classFile};
    }

    /** `loadJar(jar)`. A missing or unreadable jar is a FileNotFoundException
        and changes nothing. A dex file already cached for the jar's path and
        modification time is loaded without compiling. Otherwise that dex file
        is created empty first, the jar's file entries are copied into a
        temporary archive, and the archive is compiled into the dex file; the
        archive is deleted only when the compile succeeds. */
    method LoadJar(jar: JarFile, classUuid: string, thread: int, run: CompileOutcome)
      returns (r: Result<()>)
      requires Valid()
      modifies guard, this`cacheFiles, this`dexLoaders, this`boom, this`emptyOutputs, this`handedOff
      ensures Valid()
      ensures handedOff == old(handedOff)
      ensures !jar.onDisk || !jar.canRead ==>
                && r == Err(FileNotFound(jar.path))
                && cacheFiles == old(cacheFiles) && dexLoaders == old(dexLoaders)
                && guard.log == old(guard.log) && boom == old(boom)
      ensures var dex := DexFileName(md5, jar.path, jar.lastModified);
        jar.onDisk && jar.canRead && dex in old(cacheFiles) ==>
                && r == Ok(())
                && dexLoaders == Put(old(dexLoaders), dex, DexLoader(CachePath(dex), ClassesOf(old(cacheFiles)[dex])))
                && cacheFiles == old(cacheFiles) && guard.log == old(guard.log) && boom == old(boom)
      ensures var dex := DexFileName(md5, jar.path, jar.lastModified);
        var cls := TempFileName(jar.path, classUuid);
        var staged := Create(old(cacheFiles), dex, EmptyFile) - {cls};
        jar.onDisk && jar.canRead && dex !in old(cacheFiles) && jar.headers.None? ==>
                && r == Err(ZipFailure)
                && cacheFiles == staged && dexLoaders == old(dexLoaders)
                && guard.log == old(guard.log) && boom == old(boom)
      ensures var dex := DexFileName(md5, jar.path, jar.lastModified);
        var cls := TempFileName(jar.path, classUuid);
        var staged := Create(old(cacheFiles), dex, EmptyFile) - {cls};
        jar.onDisk && jar.canRead && dex !in old(cacheFiles) && jar.headers.Some? ==>
                var packed := staged[cls := Archive(ClassEntries(jar.headers.value))];
                && guard.log == old(guard.log) + DexJarEvents(true, thread)
                && guard.running == old(guard.running) - {thread}
                && guard.holdCount == old(guard.holdCount)
                && (run.CompilerThrew? ==>
                      r == Err(CompilerFailure) && cacheFiles == packed
                      && dexLoaders == old(dexLoaders) && boom == old(boom))
                && (run.Compiled? ==>
                      && r == Ok(())
                      && cacheFiles == packed[dex := Regular(run.image)] - {cls}
                      && dexLoaders == Put(old(dexLoaders), dex, DexLoader(CachePath(dex), run.image.classes))
                      && boom == (old(boom) || run.image.length == 0))
    {
      if !jar.onDisk || !jar.canRead {
        return Err(FileNotFound(jar.path));
      }
      var dexFile := DexFileName(md5, jar.path, jar.lastModified);
      if dexFile in cacheFiles {
        var _ := LoadDex(CacheFile(dexFile));
        return Ok(());
      } else {
        cacheFiles := cacheFiles[dexFile := EmptyFile];  // dexFile.createNewFile()
      }
      var classFile := GenerateTempFile(jar.path, classUuid, false);
      if jar.headers.None? {
        // jarFile.getFileHeaders() throws a ZipException
        return Err(ZipFailure);
      }
      var packed := PackEntries(jar.headers.value);
      cacheFiles := cacheFiles[classFile := Archive(packed)];
      var compiled := DexJar(classFile, Durable(dexFile), thread, run);
      if compiled.Err? {
        return Err(compiled.failure);
      }
      cacheFiles := cacheFiles - {classFile};
      r := Ok(());
    }

    /** `loadClass(name, resolve)`: the class already loaded, else the parent's,
        else the newest registered loader's, else `findClass`, which throws. */
    method LoadClass(name: string) returns (r: Result<JClass>)
      ensures r == Resolve(loadedClasses, parent, dexLoaders, name)
    {
      var loadedClass: Option<JClass> := if name in loadedClasses then Some(loadedClasses[name]) else None;
      if loadedClass.None? {
        if parent.Some? {
          loadedClass := ParentLoad(parent, name);  // a ClassNotFoundException is swallowed
        }
        if loadedClass.None? {
          var i := |dexLoaders|;
          while i > 0
            invariant 0 <= i <= |dexLoaders|
            invariant loadedClass.None?
            invariant forall j :: i <= j < |dexLoaders| ==> DexLoad(dexLoaders[j].1, parent, name).None?
          {
            i := i - 1;
            loadedClass := DexLoad(dexLoaders[i].1, parent, name);
            if loadedClass.Some? {
              assert LatestResolving(dexLoaders, parent, name) == Some(i);
              break;
            }
          }
        }
        if loadedClass.None? {
          return Err(ClassNotFound(name));  // findClass(name)
        }
      }
      r := Ok(loadedClass.value);
    }
  }
}
