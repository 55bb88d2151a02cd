/** Values the class loader works with: classes, dex images, files of the cache
    directory, jars handed in by callers, the outcome of the external dx compiler,
    and the loaders it builds (DexClassLoader and the parent class loader). */
module Artifacts {

  datatype Option<T> = None | Some(value: T)

  /** A loaded class. `origin` is an opaque identity of the artifact that defines it. */
  datatype JClass = JClass(name: string, origin: string)

  /** The exceptions the loader surfaces, as values. */
  datatype Failure =
    | FileNotFound(path: string)    // java.io.FileNotFoundException
    | ZipFailure                    // a ZipException, rethrown wrapped in an IOException
    | CompilerFailure               // the dx compiler threw
    | ClassNotFound(name: string)   // ClassNotFoundException
    | FatalLoading(cause: Failure)  // AndroidClassLoader.FatalLoadingException

  datatype Result<T> = Ok(value: T) | Err(failure: Failure)

  /** One entry of a zip archive, as zip4j reports it in a file header. */
  datatype ZipEntry = ZipEntry(name: string, isDirectory: bool, data: seq<bv8>)

  /** What a compiled dex file holds: its length in bytes and the classes a
      DexClassLoader built on it defines. */
  datatype DexImage = DexImage(length: nat, classes: map<string, JClass>)

  /** The file `createNewFile` leaves behind: zero bytes, no classes. */
  const EmptyDex := DexImage(0, map[])

  /** A dex image that can be on disk: a zero-byte file defines no class. */
  type DexOutput = d: DexImage | d.length > 0 || d.classes == map[] witness EmptyDex

  /** An entry of the cache directory. */
  datatype FileEntry =
    | Directory
    | Archive(entries: seq<ZipEntry>)  // a jar written through zip4j
    | Regular(image: DexOutput)        // a dex output (possibly still empty)

  const EmptyFile := Regular(EmptyDex)

  /** The classes a DexClassLoader finds in a file: only a dex output defines any. */
  function ClassesOf(entry: FileEntry): map<string, JClass>
  {
    if entry.Regular? then entry.image.classes else map[]
  }

  /** A jar file handed to `loadJar`. `headers` is None when zip4j cannot read it. */
  datatype JarFile = JarFile(
    path: string,
    onDisk: bool,
    canRead: bool,
    lastModified: int,
    headers: Option<seq<ZipEntry>>)

  /** A `File` handed to `loadDex`: its name, its path and what is on disk there. */
  datatype DexFileArg = DexFileArg(name: string, path: string, entry: Option<FileEntry>)

  /** What one run of the dx compiler does to its output file. */
  datatype CompileOutcome = Compiled(image: DexOutput) | CompilerThrew

  /** The parent class loader given to the constructor (null is `None`). */
  datatype ParentLoader = ParentLoader(isAndroidClassLoader: bool, classes: map<string, JClass>)

  /** `parent.loadClass(name)`, with its ClassNotFoundException as None. */
  function ParentLoad(parent: Option<ParentLoader>, name: string): Option<JClass>
  {
    if parent.Some? && name in parent.value.classes then Some(parent.value.classes[name]) else None
  }

  /** A DexClassLoader: the path of the dex file it was built on and the classes it defines. */
  datatype DexLoader = DexLoader(dexPath: string, classes: map<string, JClass>)

  /** `DexClassLoader.loadClass(name)`: parent first, then its own dex file. */
  function DexLoad(loader: DexLoader, parent: Option<ParentLoader>, name: string): Option<JClass>
  {
    match ParentLoad(parent, name)
    case Some(c) => Some(c)
    case None => if name in loader.classes then Some(loader.classes[name]) else None
  }
}
