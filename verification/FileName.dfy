/** File names: C strings in fixed buffers, the sequence text, and the bounded
    building of a name in `DS_FileCreateName`. */
module FileName {
  datatype Option<+T> = None | Some(value: T)

  const NUL: char := '\0'
  const SEPARATOR: char := '/'  // DS_PATH_SEPARATOR
  const PATH_SIZE: nat := 64    // OS_MAX_PATH_LEN, the size of every path and file name buffer
  const EXT_SIZE: nat := 8      // DS_EXTENSION_BUFSIZE
  const WORK_SIZE: nat := 128   // sizeof(Workname)
  const SEQUENCE_DIGITS: nat := 8
  const MAX_SEQUENCE_COUNT: nat := 99_999_999

  /** Fixed-size character buffers of the table structures, terminated or not. */
  type PathBuffer = b: seq<char> | |b| == PATH_SIZE witness seq(PATH_SIZE, i => NUL)
  type ExtBuffer = b: seq<char> | |b| == EXT_SIZE witness seq(EXT_SIZE, i => NUL)

  /** A cFE time text, "YYYY-DDD-HH:MM:SS.sssss". */
  type ClockText = s: string | |s| == 23 && NUL !in s witness "1980-001-00:00:00.00000"

  /** The string in a buffer: what precedes the first NUL, or all of it. */
  function CStr(buf: seq<char>): (s: string)
    ensures s <= buf && NUL !in s
    ensures |s| < |buf| ==> buf[|s|] == NUL
  {
    if buf == [] || buf[0] == NUL then [] else [buf[0]] + CStr(buf[1..])
  }

  lemma {:induction false} CStrIs(buf: seq<char>, s: string)
    requires s <= buf && NUL !in s && |s| < |buf| && buf[|s|] == NUL
    ensures CStr(buf) == s
  {
    if s != [] {
      assert buf[0] == s[0] && s[0] in s;
      CStrIs(buf[1..], s[1..]);
    }
  }

  // ----- The sequence text of DS_FileCreateSequence

  function Digit(d: nat): char
    requires d < 10
  {
    ('0' as int + d) as char
  }

  /** The `n` least significant decimal digits of `count`. */
  function Digits(count: nat, n: nat): (s: string)
    ensures |s| == n && NUL !in s && SEPARATOR !in s
    ensures forall k | 0 <= k < n :: '0' <= s[k] <= '9'
  {
    if n == 0 then [] else Digits(count / 10, n - 1) + [Digit(count % 10)]
  }

  function Decode(s: string): int {
    if s == [] then 0 else 10 * Decode(s[..|s| - 1]) + (s[|s| - 1] as int - '0' as int)
  }

  function Pow10(n: nat): nat {
    if n == 0 then 1 else 10 * Pow10(n - 1)
  }

  /** Reading the digits back gives the count, if it has no more than `n` digits. */
  lemma {:induction false} DigitsDecode(count: nat, n: nat)
    ensures Decode(Digits(count, n)) == count <==> count < Pow10(n)
    ensures Decode(Digits(count, n)) < Pow10(n)
  {
    if n > 0 {
      DigitsDecode(count / 10, n - 1);
      var s := Digits(count, n);
      assert s[..n - 1] == Digits(count / 10, n - 1) && s[n - 1] == Digit(count % 10);
    }
  }

  /** Every count up to the rollover value is recovered from its eight digits. */
  lemma EightDigitsDecode(count: nat)
    requires count <= MAX_SEQUENCE_COUNT
    ensures Decode(Digits(count, SEQUENCE_DIGITS)) == count
  {
    assert Pow10(8) == 10 * (10 * (10 * (10 * (10 * (10 * (10 * (10 * Pow10(0)))))))) by {
      assert Pow10(8) == 10 * Pow10(7) && Pow10(7) == 10 * Pow10(6) && Pow10(6) == 10 * Pow10(5);
      assert Pow10(5) == 10 * Pow10(4) && Pow10(4) == 10 * Pow10(3) && Pow10(3) == 10 * Pow10(2);
    }
    DigitsDecode(count, SEQUENCE_DIGITS);
  }

  /** "YYYYDDDHHMMSS" out of the cFE text. */
  function TimeText(cfe: ClockText): (s: string)
    ensures NUL !in s
  {
    assert forall k | 0 <= k < 23 :: cfe[k] in cfe;
    [cfe[0], cfe[1], cfe[2], cfe[3], cfe[5], cfe[6], cfe[7], cfe[9], cfe[10], cfe[12], cfe[13], cfe[15], cfe[16]]
  }

  /** The time text is the cFE text without its punctuation and fraction. */
  lemma TimeTextIs(cfe: ClockText, year: string, day: string, hour: string, minute: string, second: string, rest: string)
    requires |year| == 4 && |day| == 3 && |hour| == 2 && |minute| == 2 && |second| == 2 && |rest| == 6
    requires cfe == year + "-" + day + "-" + hour + ":" + minute + ":" + second + rest
    ensures TimeText(cfe) == year + day + hour + minute + second
  {
    assert cfe[..4] == year && cfe[5..8] == day && cfe[9..11] == hour && cfe[12..14] == minute && cfe[15..17] == second;
  }

  // ----- The exact name

  /** The name parts of a destination file table entry, as raw buffers. */
  datatype NameParts = NameParts(path: PathBuffer, base: PathBuffer, ext: ExtBuffer)

  function Directory(path: string): string
    requires path != []
  {
    path + if path[|path| - 1] != SEPARATOR then [SEPARATOR] else []
  }

  function Suffix(ext: string): string {
    if ext == [] then [] else (if ext[0] != '.' then "." else []) + ext
  }

  /** Path, separator if missing, base, sequence, dot if missing, extension, nothing cut off. */
  function ExactName(parts: NameParts, sequence: string): string
    requires CStr(parts.path) != []
  {
    Directory(CStr(parts.path)) + CStr(parts.base) + sequence + Suffix(CStr(parts.ext))
  }

  /** The name stored for a new file, or None where the destination gets disabled. */
  function NameFor(parts: NameParts, sequence: string): Option<string> {
    if CStr(parts.path) != [] && |ExactName(parts, sequence)| < PATH_SIZE then
      Some(ExactName(parts, sequence))
    else
      None
  }

  /** The path, written with or without its final slash. */
  predicate IsDirectory(path: string, dir: string) {
    path == dir + "/" || (path == dir && dir != "" && dir[|dir| - 1] != '/')
  }

  /** The extension, written with or without its leading dot. */
  predicate IsExtension(text: string, ext: string) {
    text == "." + ext || (text == ext && ext != "" && ext[0] != '.')
  }

  lemma PartsAre(path: string, dir: string, text: string, ext: string)
    ensures IsDirectory(path, dir) ==> path != "" && Directory(path) == dir + "/"
    ensures IsExtension(text, ext) ==> Suffix(text) == "." + ext
  {
  }

  /** The name for every path and extension: however they are written, one slash ends the directory, one dot precedes
      the extension, and there is no dot without an extension. It is accepted below 64 characters; nothing is without a
      path. */
  lemma NameForIs(parts: NameParts, dir: string, ext: string, sequence: string)
    ensures CStr(parts.path) == "" ==> NameFor(parts, sequence) == None
    ensures IsDirectory(CStr(parts.path), dir) && CStr(parts.ext) == "" ==>
              var name := dir + "/" + CStr(parts.base) + sequence;
              NameFor(parts, sequence) == if |name| < 64 then Some(name) else None
    ensures IsDirectory(CStr(parts.path), dir) && IsExtension(CStr(parts.ext), ext) ==>
              var name := dir + "/" + CStr(parts.base) + sequence + ("." + ext);
              NameFor(parts, sequence) == if |name| < 64 then Some(name) else None
  {
    hide CStr, Directory, IsDirectory, IsExtension;
    PartsAre(CStr(parts.path), dir, CStr(parts.ext), ext);
    assert CStr(parts.ext) == "" ==> Suffix(CStr(parts.ext)) == "";
    var front := dir + "/" + CStr(parts.base) + sequence;
    assert front + "" == front;
  }

  /** A stored name is a non-empty C string with a separator, and fits its 64-byte buffer with its NUL. */
  lemma NameForIsUsable(parts: NameParts, sequence: string)
    requires NUL !in sequence && NameFor(parts, sequence).Some?
    ensures var name := NameFor(parts, sequence).value;
            0 < |name| < PATH_SIZE && NUL !in name && SEPARATOR in name
  {
    var path := CStr(parts.path);
    var dir := Directory(path);
    assert dir[|dir| - 1] == SEPARATOR;
    assert ExactName(parts, sequence)[|dir| - 1] == SEPARATOR;
  }

  /** Different counts give different names, whatever the other parts are. */
  lemma CountsGiveDistinctNames(parts: NameParts, c: nat, d: nat)
    requires c <= MAX_SEQUENCE_COUNT && d <= MAX_SEQUENCE_COUNT && c != d
    requires CStr(parts.path) != []
    ensures ExactName(parts, Digits(c, SEQUENCE_DIGITS)) != ExactName(parts, Digits(d, SEQUENCE_DIGITS))
  {
    var front := Directory(CStr(parts.path)) + CStr(parts.base);
    var s, t := Digits(c, SEQUENCE_DIGITS), Digits(d, SEQUENCE_DIGITS);
    var x, y := ExactName(parts, s), ExactName(parts, t);
    assert x[|front|..|front| + 8] == s;
    assert y[|front|..|front| + 8] == t;
    EightDigitsDecode(c);
    EightDigitsDecode(d);
  }

  // ----- The move on close

  /** What `strrchr(name, '/')` points at. */
  function FromLastSlash(name: string): (r: Option<string>)
    ensures r.None? <==> SEPARATOR !in name
    ensures r.Some? ==> r.value != [] && r.value[0] == SEPARATOR && SEPARATOR !in r.value[1..]
  {
    if name == [] then None
    else
      var rest := FromLastSlash(name[1..]);
      if rest.Some? then rest
      else if name[0] == SEPARATOR then Some(name)
      else None
  }

  /** It is a part of the name, up to its end. */
  lemma {:induction false} LastSlashIsInside(name: string)
    requires SEPARATOR in name
    ensures exists k :: 0 <= k < |name| && name[k..] == FromLastSlash(name).value
  {
    if SEPARATOR in name[1..] {
      LastSlashIsInside(name[1..]);
      var k :| 0 <= k < |name[1..]| && name[1..][k..] == FromLastSlash(name[1..]).value;
      assert name[k + 1..] == name[1..][k..];
    } else {
      assert name[0..] == name;
    }
  }

  /** The downlink directory: at most 63 characters of it, less one final slash. */
  function MoveDirectory(movename: PathBuffer): string {
    var dir := CStr(movename);
    var kept := if |dir| < PATH_SIZE then dir else dir[..PATH_SIZE - 1];
    if kept != [] && kept[|kept| - 1] == SEPARATOR then kept[..|kept| - 1] else kept
  }

  /** Where a closed file is moved to; None when no move is attempted. */
  function MoveTarget(movename: PathBuffer, name: string): Option<string> {
    var tail := FromLastSlash(name);
    if CStr(movename) == [] || tail.None? then None
    else if |MoveDirectory(movename)| + |tail.value| < PATH_SIZE then Some(MoveDirectory(movename) + tail.value)
    else None
  }

  lemma {:induction false} LastSlashOf(dir: string, tail: string)
    requires tail != [] && tail[0] == SEPARATOR && SEPARATOR !in tail[1..]
    ensures FromLastSlash(dir + tail) == Some(tail)
  {
    var name := dir + tail;
    if dir == [] {
      assert name == tail && FromLastSlash(tail[1..]).None?;
    } else {
      LastSlashOf(dir[1..], tail);
      assert name[1..] == dir[1..] + tail;
      assert FromLastSlash(name) == FromLastSlash(name[1..]);
    }
  }

  /** The buffer holds the string `dir`; of one that fills the buffer only 63 characters count. */
  ghost predicate HoldsDirectory(movename: PathBuffer, dir: string) {
    && |dir| < 64 && dir == movename[..|dir|] && '\0' !in dir
    && (movename[|dir|] == '\0' || |dir| == 63)
  }

  /** Where a file is moved to, for every table entry and every name: to its directory, less one final slash, under
      what its name has from the last slash on. It is not moved without a directory, without a slash, or if the new name
      has 64 characters or more. */
  lemma MoveTargetIs(movename: PathBuffer, dir: string, front: string, tail: string)
    requires HoldsDirectory(movename, dir) && '/' !in tail
    ensures MoveTarget(movename, tail) == None
    ensures var target := (if dir != "" && dir[|dir| - 1] == '/' then dir[..|dir| - 1] else dir) + "/" + tail;
            MoveTarget(movename, front + "/" + tail) == if dir != "" && |target| < 64 then Some(target) else None
  {
    LastSlashOf(front, "/" + tail);
    assert front + "/" + tail == front + ("/" + tail);
    DirectoryIs(movename, dir);
    assert MoveDirectory(movename) + ("/" + tail) == MoveDirectory(movename) + "/" + tail;
  }

  lemma {:induction false} CutIs(buf: seq<char>, dir: string)
    requires dir <= buf && NUL !in dir && (|dir| < |buf| && (buf[|dir|] == NUL || |dir| + 1 == |buf|))
    ensures var s := CStr(buf); dir == if |s| < |buf| then s else s[..|buf| - 1]
  {
    if dir != [] {
      assert buf[0] == dir[0] && dir[0] in dir;
      CutIs(buf[1..], dir[1..]);
    }
  }

  lemma DirectoryIs(movename: PathBuffer, dir: string)
    requires HoldsDirectory(movename, dir)
    ensures CStr(movename) == [] <==> dir == []
    ensures MoveDirectory(movename) == if dir != "" && dir[|dir| - 1] == '/' then dir[..|dir| - 1] else dir
  {
    CutIs(movename, dir);
  }

  /** A move takes the file to the downlink directory and keeps everything from its last slash on; it is attempted
      for every name with a slash whose new name fits the buffer. */
  lemma MoveKeepsFileName(movename: PathBuffer, name: string)
    requires SEPARATOR in name
    ensures var r := MoveTarget(movename, name);
            && (r.Some? <==> CStr(movename) != [] && |MoveDirectory(movename)| + |FromLastSlash(name).value| < PATH_SIZE)
            && (r.Some? ==> |r.value| < PATH_SIZE && MoveDirectory(movename) <= r.value
                            && FromLastSlash(r.value) == FromLastSlash(name))
  {
    LastSlashOf(MoveDirectory(movename), FromLastSlash(name).value);
  }
}
