/** The character-by-character building of a name in `DS_FileCreateName`, in a
    work buffer that starts with arbitrary contents. */
module NameBuffer {
  import opened FileName

  /** The buffer holds the string `s`, terminated. */
  ghost predicate Holds(buf: array<char>, s: string)
    reads buf
  {
    |s| < buf.Length && buf[..|s|] == s && NUL !in s && buf[|s|] == NUL
  }

  function Take(s: string, n: nat): string {
    if |s| <= n then s else s[..n]
  }

  /** `CFE_SB_MessageStringGet` into the part of `dst` that starts at `at` and has `max` bytes. */
  method MessageStringGet(dst: array<char>, at: nat, max: nat, src: seq<char>)
    requires at + max <= dst.Length
    modifies dst
    ensures dst[..at] == old(dst[..at])
    ensures max == 0 ==> dst[..] == old(dst[..])
    ensures max > 0 ==> var s := Take(CStr(src), max - 1);
              dst[at..at + |s|] == s && dst[at + |s|] == NUL && dst[at + |s| + 1..] == old(dst[at + |s| + 1..])
  {
    if max == 0 {
      return;
    }
    var k := 0;
    ghost var s := Take(CStr(src), max - 1);
    CopyLength(src, max - 1);
    while k < |src| && src[k] != NUL && k < max - 1
      invariant k <= |s|
      invariant forall j | 0 <= j < at :: dst[j] == old(dst[j])
      invariant forall j | 0 <= j < k :: dst[at + j] == src[j]
      invariant forall j | at + k <= j < dst.Length :: dst[j] == old(dst[j])
    {
      dst[at + k] := src[k];
      k := k + 1;
    }
    assert k == |s|;
    dst[at + k] := NUL;
  }

  /** Where copying at most `n` characters of a string stops. */
  lemma CopyLength(src: seq<char>, n: nat)
    ensures var s := Take(CStr(src), n);
            && s <= src && |s| <= n
            && (forall j | 0 <= j < |s| :: src[j] != NUL)
            && (|s| < |src| && |s| < n ==> src[|s|] == NUL)
  {
    assert forall j | 0 <= j < |CStr(src)| :: CStr(src)[j] in CStr(src);
  }

  method StrLen(buf: array<char>, ghost s: string) returns (n: nat)
    requires Holds(buf, s)
    ensures n == |s|
  {
    n := 0;
    assert forall j | 0 <= j < |s| :: buf[..|s|][j] == buf[j] && s[j] in s;
    while buf[n] != NUL
      invariant n <= |s|
      decreases |s| - n
    {
      n := n + 1;
    }
  }

  /** `strncat(buf, src, n)` for a terminated string `src`. */
  method StrNCat(buf: array<char>, src: string, n: nat, ghost s: string)
    requires Holds(buf, s) && NUL !in src && |s| + n < buf.Length
    modifies buf
    ensures Holds(buf, s + Take(src, n))
  {
    var at := StrLen(buf, s);
    var k := 0;
    while k < n && k < |src|
      invariant k <= n && k <= |src|
      invariant buf[..at] == s && buf[at..at + k] == src[..k]
    {
      buf[at + k] := src[k];
      k := k + 1;
    }
    buf[at + k] := NUL;
    assert src[..k] == Take(src, n);
    assert buf[..at + k] == s + src[..k];
    assert forall j | 0 <= j < k :: src[..k][j] == src[j] && src[j] in src;
  }

  const ROOM: nat := WORK_SIZE - 1

  lemma TakeConcat(s: string, t: string)
    ensures Take(s, ROOM) + Take(t, ROOM - |Take(s, ROOM)|) == Take(s + t, ROOM)
    ensures Take(Take(s, ROOM) + t, ROOM) == Take(s + t, ROOM)
  {
  }

  /** Gets the string of a table field to position `total`, right behind the text `before`. */
  method AppendField(work: array<char>, total: nat, src: seq<char>, ghost before: string)
    requires work.Length == WORK_SIZE && total == |before| <= WORK_SIZE && NUL !in before
    requires if total < WORK_SIZE then work[..total] == before else Holds(work, Take(before, ROOM))
    modifies work
    ensures Holds(work, Take(before + CStr(src), ROOM))
  {
    MessageStringGet(work, total, WORK_SIZE - total, src);
    if total < WORK_SIZE {
      ghost var s := Take(CStr(src), WORK_SIZE - total - 1);
      assert work[..total + |s|] == work[..total] + work[total..total + |s|] == before + s;
      assert before + s == Take(before + CStr(src), ROOM);
    } else {
      assert Take(before, ROOM) == Take(before + CStr(src), ROOM);
    }
  }

  /** Appends a string at the end of the work buffer, as far as it has room. */
  method Append(work: array<char>, src: string, ghost before: string)
    requires work.Length == WORK_SIZE && Holds(work, Take(before, ROOM)) && NUL !in src
    modifies work
    ensures Holds(work, Take(before + src, ROOM))
  {
    var total := StrLen(work, Take(before, ROOM));
    StrNCat(work, src, WORK_SIZE - total - 1, Take(before, ROOM));
    TakeConcat(before, src);
  }

  /** `DS_FileCreateName`: the 128-byte work buffer never overflows, and although the base, the
      sequence and the extension may each be cut off in it, the outcome is that of the exact name. */
  method CreateName(parts: NameParts, sequence: string) returns (name: Option<string>)
    requires NUL !in sequence
    ensures name == NameFor(parts, sequence)
  {
    var work := new char[WORK_SIZE];
    var total := PutDirectory(work, parts.path);
    if total == 0 {
      return None;
    }
    ghost var text := Directory(CStr(parts.path));
    AppendField(work, total, parts.base, text);
    text := text + CStr(parts.base);
    Append(work, sequence, text);
    text := text + sequence;
    AddExtension(work, parts.ext, text);
    text := text + Suffix(CStr(parts.ext));
    assert text == ExactName(parts, sequence);
    var length := StrLen(work, Take(text, ROOM));
    name := if length < PATH_SIZE then Some(work[..length]) else None;
  }

  /** The path, and a separator written over its NUL where it lacks one. */
  method PutDirectory(work: array<char>, path: PathBuffer) returns (total: nat)
    requires work.Length == WORK_SIZE
    modifies work
    ensures total == 0 <==> CStr(path) == []
    ensures total > 0 ==> total == |Directory(CStr(path))| < WORK_SIZE && work[..total] == Directory(CStr(path))
  {
    MessageStringGet(work, 0, WORK_SIZE, path);
    ghost var text := CStr(path);
    assert work[..|text|] == work[0..0 + |text|] == text;
    total := StrLen(work, text);
    if total == 0 {
      return;
    }
    assert work[total - 1] == text[total - 1];
    if work[total - 1] != SEPARATOR {
      work[total] := SEPARATOR;
      assert work[..total + 1] == work[..total] + [SEPARATOR];
      total := total + 1;
    }
  }

  lemma SuffixOf(ext: ExtBuffer)
    ensures ext[0] == NUL ==> Suffix(CStr(ext)) == []
    ensures ext[0] == '.' ==> Suffix(CStr(ext)) == CStr(ext)
    ensures ext[0] != NUL && ext[0] != '.' ==> Suffix(CStr(ext)) == "." + CStr(ext)
  {
  }

  lemma Associate(a: string, b: string, c: string)
    ensures a + b + c == a + (b + c)
  {
  }

  method AddExtension(work: array<char>, ext: ExtBuffer, ghost text: string)
    requires work.Length == WORK_SIZE && Holds(work, Take(text, ROOM))
    modifies work
    ensures Holds(work, Take(text + Suffix(CStr(ext)), ROOM))
  {
    ghost var cut, tail := Take(text, ROOM), Suffix(CStr(ext));
    SuffixOf(ext);
    var total := StrLen(work, cut);
    if ext[0] == NUL {
      assert text + tail == text;
    } else if ext[0] != '.' {
      Append(work, ".", text);
      TakeConcat(text, ".");
      assert Take(cut + ".", ROOM) == Take(text + ".", ROOM);
      assert |cut + "."| == total + 1;
      AppendField(work, total + 1, ext, cut + ".");
      Associate(cut, ".", CStr(ext));
      TakeConcat(text, tail);
    } else {
      AppendField(work, total, ext, cut);
      TakeConcat(text, tail);
    }
  }

  /** `DS_FileCreateSequence` for a count: digits from the right, then the terminator. */
  method CountSequence(buffer: array<char>, count: nat)
    requires buffer.Length >= SEQUENCE_DIGITS + 1
    modifies buffer
    ensures Holds(buffer, Digits(count, SEQUENCE_DIGITS))
  {
    var rest := count;
    var i := SEQUENCE_DIGITS;
    ghost var all := Digits(count, SEQUENCE_DIGITS);
    while i > 0
      invariant 0 <= i <= SEQUENCE_DIGITS
      invariant all == Digits(rest, i) + buffer[i..SEQUENCE_DIGITS]
    {
      i := i - 1;
      var digit := rest % 10;
      assert Digits(rest, i + 1) == Digits(rest / 10, i) + [Digit(digit)];
      rest := rest / 10;
      ghost var done := buffer[i + 1..SEQUENCE_DIGITS];
      buffer[i] := Digit(digit);
      assert buffer[i..SEQUENCE_DIGITS] == [Digit(digit)] + done;
    }
    buffer[SEQUENCE_DIGITS] := NUL;
    assert buffer[..SEQUENCE_DIGITS] == buffer[0..SEQUENCE_DIGITS] == all;
  }

  /** `DS_FileCreateSequence` for a time: the cFE text is squeezed in place. */
  method TimeSequence(buffer: array<char>, ghost cfe: ClockText)
    requires buffer.Length >= 24 && buffer[..23] == cfe
    modifies buffer
    ensures Holds(buffer, TimeText(cfe))
  {
    assert forall k | 0 <= k < 23 :: buffer[k] == buffer[..23][k] == cfe[k];
    buffer[4] := buffer[5];
    buffer[5] := buffer[6];
    buffer[6] := buffer[7];
    buffer[7] := buffer[9];
    buffer[8] := buffer[10];
    buffer[9] := buffer[12];
    buffer[10] := buffer[13];
    buffer[11] := buffer[15];
    buffer[12] := buffer[16];
    buffer[13] := NUL;
    ghost var text := TimeText(cfe);
    assert forall k | 0 <= k < 4 :: buffer[k] == text[k];
    assert forall k | 4 <= k < 13 :: buffer[k] == text[k];
    assert buffer[..13] == text;
  }

  // ----- The move on close

  /** `strrchr(name, '/')`, as a position; -1 where C returns NULL. */
  method StrRChr(name: string) returns (k: int)
    ensures -1 <= k < |name|
    ensures FromLastSlash(name) == if k == -1 then None else Some(name[k..])
  {
    k := |name| - 1;
    while k >= 0 && name[k] != SEPARATOR
      invariant -1 <= k < |name|
      invariant forall j | k < j < |name| :: name[j] != SEPARATOR
    {
      k := k - 1;
    }
    if k >= 0 {
      assert name == name[..k] + name[k..];
      LastSlashOf(name[..k], name[k..]);
    }
  }

  /** The downlink directory, without a final slash. */
  method PutMoveDirectory(path: array<char>, movename: PathBuffer) returns (length: nat)
    requires path.Length == PATH_SIZE && movename[0] != NUL
    modifies path
    ensures length == |MoveDirectory(movename)| < PATH_SIZE && path[..length] == MoveDirectory(movename)
  {
    MessageStringGet(path, 0, PATH_SIZE, movename);
    ghost var dir := Take(CStr(movename), PATH_SIZE - 1);
    assert path[..|dir|] == path[0..0 + |dir|] == dir;
    length := StrLen(path, dir);
    assert path[length - 1] == dir[length - 1];
    if path[length - 1] == SEPARATOR {
      path[length - 1] := NUL;
      length := length - 1;
      assert path[..length] == dir[..length];
    }
  }

  /** `strcat` behind the first `length` characters. */
  method StrCat(path: array<char>, length: nat, tail: string)
    requires length + |tail| < path.Length
    modifies path
    ensures path[..length + |tail|] == old(path[..length]) + tail && path[length + |tail|] == NUL
  {
    var j := 0;
    while j < |tail|
      invariant j <= |tail|
      invariant path[..length] == old(path[..length])
      invariant path[length..length + j] == tail[..j]
    {
      path[length + j] := tail[j];
      j := j + 1;
    }
    path[length + j] := NUL;
    assert path[..length + j] == path[..length] + path[length..length + j];
  }

  /** The name that `DS_FileCloseDest` moves a file to, built in its 64-byte `PathName`; None where it does not move. */
  method MovePath(movename: PathBuffer, name: string) returns (target: Option<string>)
    ensures target == MoveTarget(movename, name)
  {
    hide MoveDirectory;
    if movename[0] == NUL {
      return None;
    }
    var path := new char[PATH_SIZE];
    var length := PutMoveDirectory(path, movename);
    var slash := StrRChr(name);
    if slash == -1 {
      return None;
    }
    var tail := name[slash..];
    if length + |tail| >= PATH_SIZE {
      return None;
    }
    StrCat(path, length, tail);
    target := Some(path[..length + |tail|]);
  }
}
