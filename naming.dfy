/** The names the loader makes up: decimal renderings of Java integers,
    String.hashCode, temporary file names, the dex cache key and zip entry names. */
module Naming {

  import opened Artifacts

  // ---------------------------------------------------------------------------
  // Decimal rendering, as Integer.toString and Long.toString do it

  function DigitChar(d: nat): (c: char)
    requires d < 10
    ensures '0' <= c <= '9'
  {
    ('0' as int + d) as char
  }

  function DigitValue(c: char): nat
  {
    if '0' <= c <= '9' then c as int - '0' as int else 0
  }

  /** The decimal digits of `n`, most significant first, no leading zeros. */
  function Digits(n: nat): (s: string)
    ensures |s| > 0
    ensures forall i :: 0 <= i < |s| ==> '0' <= s[i] <= '9'
  {
    if n < 10 then [DigitChar(n)] else Digits(n / 10) + [DigitChar(n % 10)]
  }

  /** The number a string of decimal digits denotes. */
  function DigitsValue(s: string): nat
  {
    if s == [] then 0 else DigitsValue(s[..|s| - 1]) * 10 + DigitValue(s[|s| - 1])
  }

  lemma {:induction false} DigitsRoundTrip(n: nat)
    ensures DigitsValue(Digits(n)) == n
  {
    if n >= 10 {
      var s := Digits(n);
      assert s[..|s| - 1] == Digits(n / 10);
      DigitsRoundTrip(n / 10);
    }
  }

  /** `Long.toString(n)`: a minus sign for negative numbers, then the digits of |n|. */
  function Decimal(n: int): (s: string)
    ensures '_' !in s
  {
    if n < 0 then "-" + Digits(-n) else Digits(n)
  }

  /** The inverse of Decimal. */
  function ParseDecimal(s: string): int
  {
    if |s| > 0 && s[0] == '-' then -(DigitsValue(s[1..]) as int) else DigitsValue(s)
  }

  lemma DecimalRoundTrip(n: int)
    ensures ParseDecimal(Decimal(n)) == n
  {
    if n < 0 {
      assert Decimal(n)[1..] == Digits(-n);
      DigitsRoundTrip(-n);
    } else {
      DigitsRoundTrip(n);
    }
  }

  lemma DecimalInjective(m: int, n: int)
    requires Decimal(m) == Decimal(n)
    ensures m == n
  {
    DecimalRoundTrip(m);
    DecimalRoundTrip(n);
  }

  // ---------------------------------------------------------------------------
  // java.lang.String.hashCode, with 32-bit two's-complement wrap-around

  const TwoTo31: int := 0x8000_0000
  const TwoTo32: int := 0x1_0000_0000

  /** The `int` a Java computation yields for the mathematical value `x`. */
  function Wrap32(x: int): (r: int)
    ensures -TwoTo31 <= r < TwoTo31
    ensures (x - r) % TwoTo32 == 0
  {
    (x + TwoTo31) % TwoTo32 - TwoTo31
  }

  /** `s.hashCode()`: h = 31 * h + c over the characters, in `int` arithmetic. */
  function StringHashCode(s: string): (h: int)
    ensures -TwoTo31 <= h < TwoTo31
  {
    if s == [] then 0 else Wrap32(31 * StringHashCode(s[..|s| - 1]) + s[|s| - 1] as int)
  }

  // ---------------------------------------------------------------------------
  // Splitting a string at a separator

  /** The position of the first `m` in `s` (|s| when there is none). */
  function FirstIndex(s: string, m: char): (k: nat)
    ensures k <= |s|
  {
    if s == [] || s[0] == m then 0 else 1 + FirstIndex(s[1..], m)
  }

  /** The position of the last `m` in `s` (|s| when there is none). */
  function LastIndex(s: string, m: char): (k: nat)
    ensures k <= |s|
  {
    if s == [] then 0
    else if s[|s| - 1] == m then |s| - 1
    else if LastIndex(s[..|s| - 1], m) == |s| - 1 then |s|
    else LastIndex(s[..|s| - 1], m)
  }

  lemma {:induction false} FirstIndexAt(a: string, b: string, m: char)
    requires m !in a
    ensures FirstIndex(a + [m] + b, m) == |a|
  {
    if a != [] {
      assert (a + [m] + b)[1..] == a[1..] + [m] + b;
      FirstIndexAt(a[1..], b, m);
    }
  }

  lemma {:induction false} LastIndexAt(a: string, b: string, m: char)
    requires m !in b
    ensures LastIndex(a + [m] + b, m) == |a|
  {
    if b != [] {
      var t := a + [m] + b;
      assert t[..|t| - 1] == a + [m] + b[..|b| - 1];
      LastIndexAt(a, b[..|b| - 1], m);
    }
  }

  /** Two strings built as `a + [m] + b` with `m` absent from `b` split the same way. */
  lemma SplitAtLast(a1: string, b1: string, a2: string, b2: string, m: char)
    requires m !in b1 && m !in b2
    requires a1 + [m] + b1 == a2 + [m] + b2
    ensures a1 == a2 && b1 == b2
  {
    var t := a1 + [m] + b1;
    LastIndexAt(a1, b1, m);
    LastIndexAt(a2, b2, m);
    assert a1 == t[..|a1|] == a2;
    assert b1 == t[|a1| + 1..] == b2;
  }

  // ---------------------------------------------------------------------------
  // generateTempFile: name.hashCode() + "_" + UUID + ".jar"

  /** The name of the temporary file made for `key` with the random UUID `uuid`. */
  function TempFileName(key: string, uuid: string): string
  {
    Decimal(StringHashCode(key)) + "_" + uuid + ".jar"
  }

  /** Two different UUIDs always give two different temporary file names,
      whatever keys they were made for. */
  lemma TempFileNamesDistinct(key1: string, uuid1: string, key2: string, uuid2: string)
    requires uuid1 != uuid2
    ensures TempFileName(key1, uuid1) != TempFileName(key2, uuid2)
  {
    var d1, d2 := Decimal(StringHashCode(key1)), Decimal(StringHashCode(key2));
    var n1, n2 := TempFileName(key1, uuid1), TempFileName(key2, uuid2);
    assert n1 == d1 + ['_'] + (uuid1 + ".jar");
    assert n2 == d2 + ['_'] + (uuid2 + ".jar");
    FirstIndexAt(d1, uuid1 + ".jar", '_');
    FirstIndexAt(d2, uuid2 + ".jar", '_');
    // the UUID sits between the first '_' and the ".jar" suffix
    assert n1[FirstIndex(n1, '_') + 1..|n1| - 4] == uuid1;
    assert n2[FirstIndex(n2, '_') + 1..|n2| - 4] == uuid2;
  }

  // ---------------------------------------------------------------------------
  // generateDexFileName: MD5 of jar.getPath() + "_" + jar.lastModified()

  /** The string whose MD5 digest names the cached dex of a jar. */
  function DexMessage(path: string, lastModified: int): string
  {
    path + "_" + Decimal(lastModified)
  }

  /** The message determines the jar path and the modification time it was made
      from, so a jar touched since its last compile gets a different message. */
  lemma DexMessageInjective(path1: string, mtime1: int, path2: string, mtime2: int)
    requires DexMessage(path1, mtime1) == DexMessage(path2, mtime2)
    ensures path1 == path2 && mtime1 == mtime2
  {
    assert path1 + ['_'] + Decimal(mtime1) == DexMessage(path1, mtime1);
    assert path2 + ['_'] + Decimal(mtime2) == DexMessage(path2, mtime2);
    SplitAtLast(path1, Decimal(mtime1), path2, Decimal(mtime2), '_');
    DecimalInjective(mtime1, mtime2);
  }

  /** `generateDexFileName`, with the MD5 digest as the function `md5`. */
  function DexFileName(md5: string -> string, path: string, lastModified: int): string
  {
    md5(DexMessage(path, lastModified))
  }

  // ---------------------------------------------------------------------------
  // defineClass's zip entry: name.replace('.', '/') + ".class"

  /** `s.replace(from, to)` for single characters. */
  function ReplaceChar(s: string, from: char, to: char): (r: string)
    ensures |r| == |s|
    ensures forall i :: 0 <= i < |s| ==> r[i] == if s[i] == from then to else s[i]
  {
    if s == [] then [] else [if s[0] == from then to else s[0]] + ReplaceChar(s[1..], from, to)
  }

  const ClassSuffix: string := ".class"

  /** The path inside the jar under which the class `name` is stored. */
  function EntryName(name: string): string
  {
    ReplaceChar(name, '.', '/') + ClassSuffix
  }

  /** The class whose bytes an entry holds, when the entry names a class file. */
  function ClassNameOf(entry: string): Option<string>
  {
    if |entry| >= |ClassSuffix| && entry[|entry| - |ClassSuffix|..] == ClassSuffix
    then Some(ReplaceChar(entry[..|entry| - |ClassSuffix|], '/', '.'))
    else None
  }

  /** The entry name keeps the class's package path (every '.' before the
      suffix became '/') and maps back to the class name, for every class name
      without '/' (binary class names never contain one). */
  lemma EntryNameRoundTrip(name: string)
    requires '/' !in name
    ensures |EntryName(name)| == |name| + |ClassSuffix|
    ensures '.' !in EntryName(name)[..|name|]
    ensures ClassNameOf(EntryName(name)) == Some(name)
  {
    var e := EntryName(name);
    assert e[..|name|] == ReplaceChar(name, '.', '/');
    assert e[|e| - |ClassSuffix|..] == ClassSuffix;
    var back := ReplaceChar(e[..|name|], '/', '.');
    forall i | 0 <= i < |name| ensures back[i] == name[i] {
      assert name[i] != '/';
    }
    assert back == name;
  }
}
