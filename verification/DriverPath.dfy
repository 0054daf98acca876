/** Wide strings in a fixed buffer, and the path of the driver image built in one. */
module DriverPath {
  import opened Scm
  import opened CStrings

  const DRIVER_NAME: string := "NetworkMnt"

  /** `L"\\" DRIVER_NAME L".sys"` */
  const SUFFIX: string := "\\NetworkMnt.sys"

  const MAX_PATH := 260

  /** What `GetCurrentDirectoryW` has to report. */
  datatype Directory = Unavailable(code: RefusalCode) | Path(path: string)

  predicate WellFormed(d: Directory) {
    d.Path? ==> d.path != "" && NoNul(d.path)
  }

  /** The call is told `length` characters but the buffer has only `capacity`:
      it overruns for the directories in between. */
  predicate Overruns(d: Directory, length: nat, capacity: nat) {
    d.Path? && capacity < |d.path| + 1 <= length
  }

  /** `GetCurrentDirectoryW(length, buffer)`: copies if it believes there is room,
      and otherwise only reports the size it needs. */
  method GetCurrentDirectory(d: Directory, length: nat, buffer: array<char>) returns (n: nat)
    requires WellFormed(d) && !Overruns(d, length, buffer.Length)
    modifies buffer
    ensures n == 0 <==> d.Unavailable?
    ensures d.Path? && |d.path| + 1 <= length ==> n == |d.path| && Held(buffer[..]) == d.path
    ensures d.Path? && |d.path| + 1 > length ==> buffer[..] == old(buffer[..])
  {
    match d
    case Unavailable(_) => n := 0;
    case Path(path) =>
      if |path| + 1 > length {
        return |path| + 1;
      }
      for i := 0 to |path|
        invariant buffer[..i] == path[..i]
      {
        buffer[i] := path[i];
        assert buffer[..i + 1] == buffer[..i] + [path[i]];
      }
      buffer[|path|] := NUL;
      n := |path|;
      assert buffer[..][..n] == path[..n] == path;
      HoldsPrefix(buffer[..], path);
  }

  /** `StringCbCatW`: appends if the result and its terminator fit the byte count. */
  method StringCbCat(buffer: array<char>, bytes: nat, src: string) returns (ok: bool)
    requires bytes / 2 == buffer.Length && NoNul(src)
    modifies buffer
    ensures ok <==> |Held(old(buffer[..]))| + |src| < bytes / 2
    ensures ok ==> Held(buffer[..]) == Held(old(buffer[..])) + src
  {
    ghost var was := buffer[..];
    var end := 0;
    while end < buffer.Length && buffer[end] != NUL
      invariant 0 <= end <= buffer.Length && NoNul(was[..end])
    {
      assert was[..end + 1] == was[..end] + [was[end]];
      end := end + 1;
    }
    if end < buffer.Length {
      TerminatorUnique(was, end);
    }
    ok := end + |src| < buffer.Length;
    if ok {
      for i := 0 to |src|
        invariant buffer[..end + i] == was[..end] + src[..i]
      {
        buffer[end + i] := src[i];
        assert buffer[..end + i + 1] == buffer[..end + i] + [src[i]];
      }
      buffer[end + |src|] := NUL;
      var t := was[..end] + src;
      assert src[..|src|] == src;
      assert buffer[..][..|t|] == t;
      HoldsPrefix(buffer[..], t);
    }
  }

  /** What the path step starts from: the directory, or, when the call believes it
      does not fit, whatever the buffer held. */
  function Base(d: Directory, length: nat, was: seq<char>): string
    requires d.Path?
  {
    if |d.path| + 1 <= length then d.path else Held(was)
  }

  /** The result of the whole function. */
  function SetupResult(d: Directory, length: nat, was: seq<char>, imageOpens: bool): nat {
    if d.Unavailable? then d.code
    else if |Base(d, length, was)| + |SUFFIX| + 1 > length / 2 then ERROR_OPERATION_ABORTED
    else if !imageOpens then ERROR_FILE_NOT_FOUND
    else NO_ERROR
  }

  /** The buffer the install function passes: MAX_PATH characters, all NUL. */
  predicate Blank(was: seq<char>) {
    |was| == MAX_PATH && forall i :: 0 <= i < |was| ==> was[i] == NUL
  }

  /** Where the path step succeeds, exactly: from the install function the first
      call stays inside the buffer unless the directory has 260 to 519 characters;
      below that range the path fits if and only if directory, suffix and
      terminator do, 244 characters at most; above it the directory is silently
      dropped and the path is the bare suffix. */
  lemma PathLimits(d: Directory, was: seq<char>, imageOpens: bool)
    requires WellFormed(d) && d.Path? && Blank(was)
    ensures var n, bytes := |d.path|, 2 * MAX_PATH;
      && (Overruns(d, bytes, MAX_PATH) <==> 260 <= n < 520)
      && (n < 260 ==> Base(d, bytes, was) == d.path)
      && (n < 260 ==> (SetupResult(d, bytes, was, imageOpens) != ERROR_OPERATION_ABORTED <==> n + 16 <= 260))
      && (n >= 520 ==> Base(d, bytes, was) == "" && SetupResult(d, bytes, was, imageOpens) != ERROR_OPERATION_ABORTED)
  {
    assert was[..0] == "";
    TerminatorUnique(was, 0);
    assert |SUFFIX| == 15;
  }

  lemma SuffixSpelled()
    ensures SUFFIX == ['\\'] + DRIVER_NAME + ".sys" && |SUFFIX| == 15 && DRIVER_NAME == "NetworkMnt"
  {
  }

  /** What the path step answers to the install function, for every directory and
      image: the directory's own code when it is unavailable; otherwise that the path
      does not fit, from 245 characters on but for the dropped directories; otherwise
      whether the image opens. */
  lemma SetupAnswers(d: Directory, was: seq<char>, imageOpens: bool)
    requires WellFormed(d) && Blank(was) && !Overruns(d, 2 * MAX_PATH, MAX_PATH)
    ensures var code := SetupResult(d, 2 * MAX_PATH, was, imageOpens);
      && (d.Unavailable? ==> code == d.code)
      && (d.Path? && 245 <= |d.path| < 520 ==> code == ERROR_OPERATION_ABORTED)
      && (d.Path? && !(245 <= |d.path| < 520) ==>
            code == if imageOpens then NO_ERROR else ERROR_FILE_NOT_FOUND)
      && (code == NO_ERROR <==> d.Path? && !(245 <= |d.path| < 520) && imageOpens)
  {
    assert was[..0] == "";
    TerminatorUnique(was, 0);
    SuffixSpelled();
  }
}
