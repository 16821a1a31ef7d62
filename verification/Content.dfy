/** Comparing file contents: the chunked byte comparison of src/hash.c:111-164 and the
    line-by-line comparison of src/compare.c:11-86. */
module Content {
  import opened Common

  const NEWLINE: byte := 10
  const RETURN: byte := 13

  // ---------------------------------------------------------------- bytes

  /** A file as `open` and `read` present it. The n-th `read` offers `offers(n)` bytes, or fails
      with errno `-offers(n)` when that is negative. */
  datatype Source = Source(openError: Errno, content: Bytes, offers: nat -> int)

  /** How many bytes a `read` returns: as many as offered, but at least one and no more than fit
      the buffer and the rest of the file. */
  function ReadCount(offer: int, size: nat, left: nat): (count: nat)
    ensures count <= size && count <= left
    ensures count == 0 <==> size == 0 || left == 0
  {
    var room := if size < left then size else left;
    if offer < 0 || offer >= room then room else if offer == 0 then 1 else offer
  }

  /** The pieces in which the file is read from the n-th `read` on. */
  function Chunks(content: Bytes, offers: nat -> int, n: nat, size: nat): seq<Bytes>
    requires size > 0
    decreases |content|
  {
    if content == [] then []
    else
      var count := ReadCount(offers(n), size, |content|);
      [content[..count]] + Chunks(content[count..], offers, n + 1, size)
  }

  function Flatten(pieces: seq<Bytes>): Bytes {
    if pieces == [] then [] else pieces[0] + Flatten(pieces[1..])
  }

  lemma {:induction false} ChunksFlatten(content: Bytes, offers: nat -> int, n: nat, size: nat)
    requires size > 0
    ensures Flatten(Chunks(content, offers, n, size)) == content
    decreases |content|
  {
    if content != [] {
      var count := ReadCount(offers(n), size, |content|);
      ChunksFlatten(content[count..], offers, n + 1, size);
      assert content == content[..count] + content[count..];
    }
  }

  /** Every `read` that succeeds fills the buffer, unless the file ends first. */
  ghost predicate Fills(offers: nat -> int, size: nat) {
    forall n :: offers(n) < 0 || offers(n) >= size
  }

  lemma {:induction false} FullChunksAgree(content: Bytes, r: nat -> int, s: nat -> int, n: nat, size: nat)
    requires size > 0 && Fills(r, size) && Fills(s, size)
    ensures Chunks(content, r, n, size) == Chunks(content, s, n, size)
    decreases |content|
  {
    if content != [] {
      FullChunksAgree(content[ReadCount(r(n), size, |content|)..], r, s, n + 1, size);
    }
  }

  /** Equal pieces mean equal files; equal files mean equal pieces when reads fill the buffer. */
  lemma EqualChunks(a: Bytes, b: Bytes, r: nat -> int, s: nat -> int, size: nat)
    requires size > 0
    ensures Chunks(a, r, 0, size) == Chunks(b, s, 0, size) ==> a == b
    ensures Fills(r, size) && Fills(s, size) ==> (Chunks(a, r, 0, size) == Chunks(b, s, 0, size) <==> a == b)
  {
    ChunksFlatten(a, r, 0, size);
    ChunksFlatten(b, s, 0, size);
    if Fills(r, size) && Fills(s, size) {
      FullChunksAgree(a, r, s, 0, size);
    }
  }

  /** How many bytes each `read` returns, from the n-th on, until `left` bytes are read. */
  function Counts(left: nat, offers: nat -> int, n: nat, size: nat): seq<nat>
    requires size > 0
    decreases left
  {
    if left == 0 then []
    else
      var count := ReadCount(offers(n), size, left);
      [count] + Counts(left - count, offers, n + 1, size)
  }

  /** Two reads of the same content come in the same pieces exactly if they split it alike. */
  lemma {:induction false} PiecesByCounts(content: Bytes, r: nat -> int, s: nat -> int, n: nat, size: nat)
    requires size > 0
    ensures Chunks(content, r, n, size) == Chunks(content, s, n, size) <==>
              Counts(|content|, r, n, size) == Counts(|content|, s, n, size)
    decreases |content|
  {
    if content != [] {
      var x, y := ReadCount(r(n), size, |content|), ReadCount(s(n), size, |content|);
      var p, q := Chunks(content, r, n, size), Chunks(content, s, n, size);
      var c, d := Counts(|content|, r, n, size), Counts(|content|, s, n, size);
      assert |p[0]| == x && |q[0]| == y && c[0] == x && d[0] == y;
      if x == y {
        PiecesByCounts(content[x..], r, s, n + 1, size);
        assert p[1..] == Chunks(content[x..], r, n + 1, size) && q[1..] == Chunks(content[x..], s, n + 1, size);
        assert c[1..] == Counts(|content| - x, r, n + 1, size) && d[1..] == Counts(|content| - x, s, n + 1, size);
      }
    }
  }

  /** `read`: a negative result stands for failure. */
  method Read(file: Source, n: nat, pos: nat, buffer: array<byte>) returns (count: int)
    requires pos <= |file.content|
    modifies buffer
    ensures file.offers(n) < 0 ==> count == file.offers(n)
    ensures file.offers(n) >= 0 ==>
              count == ReadCount(file.offers(n), buffer.Length, |file.content| - pos) &&
              buffer[..count] == file.content[pos..pos + count]
  {
    if file.offers(n) < 0 {
      return file.offers(n);
    }
    count := ReadCount(file.offers(n), buffer.Length, |file.content| - pos);
    forall k | 0 <= k < count {
      buffer[k] := file.content[pos + k];
    }
  }

  /** Nothing that the comparison calls fails. */
  ghost predicate Unfailing(file: Source) {
    file.openError == OK && forall n :: file.offers(n) >= 0
  }

  /** The error of the first `read` that fails before the files are told apart or end, or 0. */
  function ReadFault(a: Source, b: Source, n: nat, pos: nat, size: nat): Errno
    requires pos <= |a.content| && pos <= |b.content|
    decreases |a.content| - pos
  {
    if a.offers(n) < 0 then -a.offers(n)
    else if b.offers(n) < 0 then -b.offers(n)
    else
      var ca, cb := ReadCount(a.offers(n), size, |a.content| - pos), ReadCount(b.offers(n), size, |b.content| - pos);
      if ca != cb || ca == 0 || a.content[pos..pos + ca] != b.content[pos..pos + cb] then OK
      else ReadFault(a, b, n + 1, pos + ca, size)
  }

  /** The code of the whole comparison. */
  function BinaryFault(a: Source, b: Source, size: nat, mallocOk: bool): Errno {
    if a.openError != OK then a.openError
    else if b.openError != OK then b.openError
    else if !mallocOk then ENOMEM
    else ReadFault(a, b, 0, 0, size)
  }

  lemma {:induction false} UnfailingReads(a: Source, b: Source, n: nat, pos: nat, size: nat)
    requires Unfailing(a) && Unfailing(b) && pos <= |a.content| && pos <= |b.content|
    ensures ReadFault(a, b, n, pos, size) == OK
    decreases |a.content| - pos
  {
    var ca, cb := ReadCount(a.offers(n), size, |a.content| - pos), ReadCount(b.offers(n), size, |b.content| - pos);
    if ca == cb > 0 {
      UnfailingReads(a, b, n + 1, pos + ca, size);
    }
  }

  /** The files have agreed for k pieces, and the next `read` of one of them fails. */
  ghost predicate FailsAfter(a: Source, b: Source, n: nat, pos: nat, size: nat, k: nat)
    requires size > 0 && pos <= |a.content| && pos <= |b.content|
  {
    var p, q := Chunks(a.content[pos..], a.offers, n, size), Chunks(b.content[pos..], b.offers, n, size);
    k <= |p| && k <= |q| && p[..k] == q[..k] && (a.offers(n + k) < 0 || b.offers(n + k) < 0)
  }

  /** Past a first piece that both files share. */
  lemma FailsOnward(a: Source, b: Source, n: nat, pos: nat, size: nat, count: nat, k: nat)
    requires size > 0 && pos + count <= |a.content| && pos + count <= |b.content| && count > 0
    requires count == ReadCount(a.offers(n), size, |a.content| - pos)
    requires count == ReadCount(b.offers(n), size, |b.content| - pos)
    requires a.content[pos..pos + count] == b.content[pos..pos + count]
    ensures FailsAfter(a, b, n, pos, size, k + 1) <==> FailsAfter(a, b, n + 1, pos + count, size, k)
  {
    hide ReadCount, Chunks;
    ChunksHead(a, n, pos, size);
    ChunksHead(b, n, pos, size);
    var p, q := Chunks(a.content[pos..], a.offers, n, size), Chunks(b.content[pos..], b.offers, n, size);
    if k < |p| && k < |q| {
      assert p[..k + 1] == [p[0]] + p[1..][..k] && q[..k + 1] == [q[0]] + q[1..][..k];
      assert p[1..][..k] == p[..k + 1][1..] && q[1..][..k] == q[..k + 1][1..];
    }
  }

  ghost predicate FailsSometime(a: Source, b: Source, n: nat, pos: nat, size: nat)
    requires size > 0 && pos <= |a.content| && pos <= |b.content|
  {
    exists k: nat :: FailsAfter(a, b, n, pos, size, k)
  }

  lemma SometimeNow(a: Source, b: Source, n: nat, pos: nat, size: nat)
    requires size > 0 && pos <= |a.content| && pos <= |b.content|
    requires a.offers(n) < 0 || b.offers(n) < 0
    ensures FailsSometime(a, b, n, pos, size)
  {
    assert FailsAfter(a, b, n, pos, size, 0);
  }

  lemma SometimeLater(a: Source, b: Source, n: nat, pos: nat, size: nat, count: nat)
    requires size > 0 && pos + count <= |a.content| && pos + count <= |b.content| && count > 0
    requires count == ReadCount(a.offers(n), size, |a.content| - pos)
    requires count == ReadCount(b.offers(n), size, |b.content| - pos)
    requires a.content[pos..pos + count] == b.content[pos..pos + count] && a.offers(n) >= 0 && b.offers(n) >= 0
    ensures FailsSometime(a, b, n, pos, size) <==> FailsSometime(a, b, n + 1, pos + count, size)
  {
    assert !FailsAfter(a, b, n, pos, size, 0);
    hide FailsAfter, ReadCount, Chunks;
    var n', pos' := n + 1, pos + count;
    if FailsSometime(a, b, n', pos', size) {
      var k: nat :| FailsAfter(a, b, n', pos', size, k);
      FailsOnward(a, b, n, pos, size, count, k);
    }
    if FailsSometime(a, b, n, pos, size) {
      var k: nat :| FailsAfter(a, b, n, pos, size, k);
      FailsOnward(a, b, n, pos, size, count, k - 1);
    }
  }

  /** If the next pieces differ or there are none, no later `read` counts. */
  lemma SometimeNever(a: Source, b: Source, n: nat, pos: nat, size: nat)
    requires size > 0 && pos <= |a.content| && pos <= |b.content| && a.offers(n) >= 0 && b.offers(n) >= 0
    requires var ca := ReadCount(a.offers(n), size, |a.content| - pos);
             var cb := ReadCount(b.offers(n), size, |b.content| - pos);
             ca != cb || ca == 0 || a.content[pos..pos + ca] != b.content[pos..pos + cb]
    ensures !FailsSometime(a, b, n, pos, size)
  {
    hide ReadCount, Chunks;
    ChunksHead(a, n, pos, size);
    ChunksHead(b, n, pos, size);
    var p, q := Chunks(a.content[pos..], a.offers, n, size), Chunks(b.content[pos..], b.offers, n, size);
    forall k: nat ensures !FailsAfter(a, b, n, pos, size, k) {
      if 0 < k <= |p| && k <= |q| {
        assert p[..k][0] == p[0] && q[..k][0] == q[0];
      }
    }
  }

  /** A comparison fails exactly if some `read` does while the pieces read so far have been the same. */
  lemma {:induction false} ReadFaultIff(a: Source, b: Source, n: nat, pos: nat, size: nat)
    requires size > 0 && pos <= |a.content| && pos <= |b.content|
    ensures ReadFault(a, b, n, pos, size) != OK <==> FailsSometime(a, b, n, pos, size)
    decreases |a.content| - pos
  {
    hide FailsSometime, ReadCount;
    var ca, cb := ReadCount(a.offers(n), size, |a.content| - pos), ReadCount(b.offers(n), size, |b.content| - pos);
    if a.offers(n) < 0 || b.offers(n) < 0 {
      SometimeNow(a, b, n, pos, size);
    } else if ca == cb && ca != 0 && a.content[pos..pos + ca] == b.content[pos..pos + cb] {
      SometimeLater(a, b, n, pos, size, ca);
      ReadFaultIff(a, b, n + 1, pos + ca, size);
    } else {
      SometimeNever(a, b, n, pos, size);
    }
  }

  /** From here on both files are read in the same pieces. */
  predicate SameFrom(a: Source, b: Source, n: nat, pos: nat, size: nat)
    requires pos <= |a.content| && pos <= |b.content|
  {
    size == 0 || Chunks(a.content[pos..], a.offers, n, size) == Chunks(b.content[pos..], b.offers, n, size)
  }

  /** One step along two equally split files. */
  lemma SameStep(a: Source, b: Source, n: nat, pos: nat, size: nat)
    requires pos <= |a.content| && pos <= |b.content|
    ensures var ca := ReadCount(a.offers(n), size, |a.content| - pos);
            var cb := ReadCount(b.offers(n), size, |b.content| - pos);
            && (size > 0 && (ca != cb || a.content[pos..pos + ca] != b.content[pos..pos + cb]) ==>
                  !SameFrom(a, b, n, pos, size))
            && (ca == cb == 0 ==> SameFrom(a, b, n, pos, size))
            && (ca == cb && a.content[pos..pos + ca] == b.content[pos..pos + cb] ==>
                  (SameFrom(a, b, n, pos, size) <==> SameFrom(a, b, n + 1, pos + ca, size)))
  {
    if size > 0 {
      ChunksHead(a, n, pos, size);
      ChunksHead(b, n, pos, size);
    }
  }

  lemma ChunksHead(a: Source, n: nat, pos: nat, size: nat)
    requires size > 0 && pos <= |a.content|
    ensures var count := ReadCount(a.offers(n), size, |a.content| - pos);
            var rest := Chunks(a.content[pos + count..], a.offers, n + 1, size);
            var all := Chunks(a.content[pos..], a.offers, n, size);
            if count == 0 then all == []
            else |all| > 0 && all[0] == a.content[pos..pos + count] && all[1..] == rest
  {
    var count := ReadCount(a.offers(n), size, |a.content| - pos);
    assert a.content[pos..][..count] == a.content[pos..pos + count];
    assert a.content[pos..][count..] == a.content[pos + count..];
  }

  /** `vd_compare_binary_files`. `mallocOk` covers both buffers. */
  method CompareBinaryFiles(a: Source, b: Source, size: nat, mallocOk: bool) returns (rc: Errno, equal: bool)
    ensures rc == OK ==> (equal <==> SameFrom(a, b, 0, 0, size))
    ensures rc == BinaryFault(a, b, size, mallocOk)
    ensures Unfailing(a) && Unfailing(b) && mallocOk ==> rc == OK
  {
    hide SameFrom, ReadCount;
    if Unfailing(a) && Unfailing(b) {
      UnfailingReads(a, b, 0, 0, size);
    }
    rc, equal := OK, false;
    if a.openError != OK { return a.openError, false; }
    if b.openError != OK { return b.openError, false; }
    if !mallocOk { return ENOMEM, false; }
    var bufferA, bufferB := new byte[size], new byte[size];
    equal := true;
    var pos, n := 0, 0;
    while true
      invariant rc == OK && equal && pos <= |a.content| && pos <= |b.content|
      invariant SameFrom(a, b, 0, 0, size) <==> SameFrom(a, b, n, pos, size)
      invariant ReadFault(a, b, 0, 0, size) == ReadFault(a, b, n, pos, size)
      decreases |a.content| - pos
    {
      SameStep(a, b, n, pos, size);
      var readA := Read(a, n, pos, bufferA);
      if readA < 0 {
        rc := -readA;
        break;
      }
      var readB := Read(b, n, pos, bufferB);
      if readB < 0 {
        rc := -readB;
        break;
      }
      if readA != readB {
        equal := false;
        break;
      }
      if readA == 0 {
        break;
      }
      if bufferA[..readA] != bufferB[..readB] {
        equal := false;
        break;
      }
      pos, n := pos + readA, n + 1;
    }
  }

  /** When reads fill the buffer, the result is right for every buffer size but zero, with which
      nothing is ever read and any two files look equal. */
  lemma SameFromMeansEqual(a: Source, b: Source, size: nat)
    ensures SameFrom(a, b, 0, 0, size) && size > 0 ==> a.content == b.content
    ensures Fills(a.offers, size) && Fills(b.offers, size) ==>
              (SameFrom(a, b, 0, 0, size) <==> size == 0 || a.content == b.content)
  {
    assert a.content[0..] == a.content && b.content[0..] == b.content;
    if size > 0 {
      EqualChunks(a.content, b.content, a.offers, b.offers, size);
    }
  }

  /** What the comparison finds, for all contents and all ways of reading: with a real buffer, two
      files look equal exactly if their contents are equal and the reads split them alike. */
  lemma LooksEqualIff(a: Source, b: Source, size: nat)
    requires size > 0
    ensures SameFrom(a, b, 0, 0, size) <==>
              a.content == b.content && Counts(|a.content|, a.offers, 0, size) == Counts(|b.content|, b.offers, 0, size)
  {
    SameFromMeansEqual(a, b, size);
    assert a.content[0..] == a.content && b.content[0..] == b.content;
    if a.content == b.content {
      PiecesByCounts(a.content, a.offers, b.offers, 0, size);
    }
  }

  /** A short `read` of one of two equal files makes them look different. */
  lemma ShortReadMisleads()
    ensures Chunks([1, 2], _ => 2, 0, 2) != Chunks([1, 2], _ => 1, 0, 2)
    ensures !SameFrom(Source(OK, [1, 2], _ => 2), Source(OK, [1, 2], _ => 1), 0, 0, 2)
  {
    var a, b := Source(OK, [1, 2], _ => 2), Source(OK, [1, 2], _ => 1);
    assert Counts(2, a.offers, 0, 2)[0] == 2 && Counts(2, b.offers, 0, 2)[0] == 1;
    LooksEqualIff(a, b, 2);
    assert Chunks([1, 2], _ => 2, 0, 2)[0] == [1, 2];
    assert Chunks([1, 2], _ => 1, 0, 2)[0] == [1];
  }

  // ---------------------------------------------------------------- lines

  predicate IsTerminator(b: byte) {
    b == NEWLINE || b == RETURN
  }

  /** The length of a line without the newlines and carriage returns at its end. */
  function TrimLength(line: Bytes): (n: nat)
    ensures n <= |line| && (n == 0 || (line[n - 1] != 10 && line[n - 1] != 13))
    ensures forall k :: n <= k < |line| ==> line[k] == 10 || line[k] == 13
  {
    if line != [] && IsTerminator(line[|line| - 1]) then TrimLength(line[..|line| - 1]) else |line|
  }

  /** `trim_line_length`. */
  method TrimLineLength(line: Bytes) returns (len: nat)
    ensures len == TrimLength(line)
  {
    len := |line|;
    while len > 0 && IsTerminator(line[len - 1])
      invariant len <= |line| && TrimLength(line[..len]) == TrimLength(line)
    {
      assert line[..len][..len - 1] == line[..len - 1];
      len := len - 1;
    }
    assert line[..|line|] == line;
  }

  /** The length of the first line with its newline, if it has one. */
  function FirstLine(s: Bytes): (n: nat)
    requires s != []
    ensures 0 < n <= |s|
    ensures forall k :: 0 <= k < n - 1 ==> s[k] != 10
    ensures n == |s| || s[n - 1] == 10
  {
    if s[0] == NEWLINE || |s| == 1 then 1 else 1 + FirstLine(s[1..])
  }

  /** The lines `getline` yields, terminators included. */
  function SplitLines(s: Bytes): seq<Bytes> {
    if s == [] then [] else [s[..FirstLine(s)]] + SplitLines(s[FirstLine(s)..])
  }

  lemma {:induction false} SplitFlatten(s: Bytes)
    ensures Flatten(SplitLines(s)) == s
    decreases |s|
  {
    if s != [] {
      SplitFlatten(s[FirstLine(s)..]);
      assert s == s[..FirstLine(s)] + s[FirstLine(s)..];
    }
  }

  /** Lines as `getline` cuts them: none is empty, byte 10 stands nowhere but at the end of a line, and only
      the last line may do without it. */
  ghost predicate LineIsCut(lines: seq<Bytes>, i: nat)
    requires i < |lines|
  {
    var line := lines[i];
    && line != [] && (forall k :: 0 <= k < |line| - 1 ==> line[k] != 10)
    && (i < |lines| - 1 ==> line[|line| - 1] == 10)
  }

  ghost predicate CutAtNewlines(lines: seq<Bytes>) {
    forall i :: 0 <= i < |lines| ==> LineIsCut(lines, i)
  }

  /** One more line in front. */
  lemma CutOnward(first: Bytes, rest: seq<Bytes>)
    requires first != [] && forall k :: 0 <= k < |first| - 1 ==> first[k] != 10
    requires rest == [] || first[|first| - 1] == 10
    ensures CutAtNewlines([first] + rest) <==> CutAtNewlines(rest)
  {
    var all := [first] + rest;
    if CutAtNewlines(rest) {
      forall i | 0 <= i < |all| ensures LineIsCut(all, i) {
        if i > 0 {
          assert all[i] == rest[i - 1] && LineIsCut(rest, i - 1);
        }
      }
    }
    if CutAtNewlines(all) {
      forall i | 0 <= i < |rest| ensures LineIsCut(rest, i) {
        assert all[i + 1] == rest[i] && LineIsCut(all, i + 1);
      }
    }
  }

  lemma {:induction false} SplitIsCut(s: Bytes)
    ensures CutAtNewlines(SplitLines(s))
    decreases |s|
  {
    hide CutAtNewlines;
    if s != [] {
      var n := FirstLine(s);
      SplitIsCut(s[n..]);
      CutOnward(s[..n], SplitLines(s[n..]));
    } else {
      NothingToCut();
    }
  }

  lemma NothingToCut()
    ensures CutAtNewlines([])
  {
  }

  /** The lines of a file are the only way to cut it at its newlines: together they are the file, none is
      empty, every one but the last ends in byte 10, and none has that byte before its end. */
  lemma {:induction false} SplitLinesIff(s: Bytes, lines: seq<Bytes>)
    ensures lines == SplitLines(s) <==> Flatten(lines) == s && CutAtNewlines(lines)
    decreases |lines|
  {
    SplitFlatten(s);
    SplitIsCut(s);
    if Flatten(lines) == s && CutAtNewlines(lines) && lines != [] {
      var first, rest := lines[0], lines[1..];
      assert LineIsCut(lines, 0);
      assert s == first + Flatten(rest) && s[|first|..] == Flatten(rest);
      assert lines == [first] + rest;
      CutOnward(first, rest);
      assert forall k :: 0 <= k < |first| - 1 ==> s[k] == first[k];
      assert s[|first| - 1] == first[|first| - 1];
      assert FirstLine(s) == |first|;
      SplitLinesIff(Flatten(rest), rest);
    }
  }

  function Head(lines: seq<Bytes>): Option<Bytes> {
    if lines == [] then None else Some(lines[0])
  }

  function Tail(lines: seq<Bytes>): seq<Bytes> {
    if lines == [] then [] else lines[1..]
  }

  /** The k-th line, if there is one. */
  function LineAt(lines: seq<Bytes>, k: nat): Option<Bytes> {
    if k < |lines| then Some(lines[k]) else None
  }

  /** What is stored of a line; nothing of a line that is not there. */
  function Text(line: Option<Bytes>): Bytes {
    if line.None? then [] else line.value[..TrimLength(line.value)]
  }

  function DiffOf(x: Option<Bytes>, y: Option<Bytes>, number: nat): seq<LineDiff> {
    if x == y then [] else [LineDiff(number, Text(x), Text(y))]
  }

  /** The differences between two lists of lines that start at line `number`. */
  function LineDiffs(la: seq<Bytes>, lb: seq<Bytes>, number: nat): seq<LineDiff>
    decreases |la| + |lb|
  {
    if la == [] && lb == [] then []
    else DiffOf(Head(la), Head(lb), number) + LineDiffs(Tail(la), Tail(lb), number + 1)
  }

  function LineDiffsOf(a: Bytes, b: Bytes): seq<LineDiff> {
    LineDiffs(SplitLines(a), SplitLines(b), 1)
  }

  /** The entry a differing line deserves. */
  ghost predicate Describes(d: LineDiff, la: seq<Bytes>, lb: seq<Bytes>, number: nat) {
    && d.lineNumber >= number
    && var k := d.lineNumber - number;
       LineAt(la, k) != LineAt(lb, k) && d.left == Text(LineAt(la, k)) && d.right == Text(LineAt(lb, k))
  }

  ghost predicate NumbersIncrease(ds: seq<LineDiff>) {
    forall i, j :: 0 <= i < j < |ds| ==> ds[i].lineNumber < ds[j].lineNumber
  }

  ghost predicate Reports(ds: seq<LineDiff>, k: nat) {
    exists d :: d in ds && d.lineNumber == k
  }

  lemma TailAt(lines: seq<Bytes>, k: nat)
    requires k > 0
    ensures LineAt(lines, k) == LineAt(Tail(lines), k - 1)
  {
  }

  /** Only lines that differ or exist on one side only are reported, in increasing order, each
      with the text of both sides without terminators. */
  lemma {:induction false} DiffsDescribe(la: seq<Bytes>, lb: seq<Bytes>, number: nat)
    ensures forall d :: d in LineDiffs(la, lb, number) ==> Describes(d, la, lb, number)
    ensures NumbersIncrease(LineDiffs(la, lb, number))
    decreases |la| + |lb|
  {
    if la != [] || lb != [] {
      var head, rest := DiffOf(Head(la), Head(lb), number), LineDiffs(Tail(la), Tail(lb), number + 1);
      DiffsDescribe(Tail(la), Tail(lb), number + 1);
      forall d | d in rest ensures Describes(d, la, lb, number) {
        assert Describes(d, Tail(la), Tail(lb), number + 1);
        TailAt(la, d.lineNumber - number);
        TailAt(lb, d.lineNumber - number);
      }
      IncreaseOnward(head, rest, number);
    }
  }

  /** No differing line goes unreported. */
  lemma {:induction false} DiffsComplete(la: seq<Bytes>, lb: seq<Bytes>, number: nat, k: nat)
    requires LineAt(la, k) != LineAt(lb, k)
    ensures Reports(LineDiffs(la, lb, number), number + k)
    decreases k
  {
    var head, rest := DiffOf(Head(la), Head(lb), number), LineDiffs(Tail(la), Tail(lb), number + 1);
    var all := LineDiffs(la, lb, number);
    if k == 0 {
      assert head[0] in all && head[0].lineNumber == number;
    } else {
      TailAt(la, k);
      TailAt(lb, k);
      DiffsComplete(Tail(la), Tail(lb), number + 1, k - 1);
      var d :| d in rest && d.lineNumber == number + k;
      assert d in all;
    }
  }

  lemma IncreaseOnward(head: seq<LineDiff>, rest: seq<LineDiff>, number: nat)
    requires |head| <= 1 && (head != [] ==> head[0].lineNumber == number)
    requires NumbersIncrease(rest) && forall d :: d in rest ==> d.lineNumber > number
    ensures NumbersIncrease(head + rest)
  {
    assert forall i :: 0 <= i < |rest| ==> rest[i] in rest;
  }

  /** The line numbers of the report are exactly those of the differing lines. */
  lemma ReportedLinesExact(a: Bytes, b: Bytes)
    ensures forall n: nat :: Reports(LineDiffsOf(a, b), n) <==>
              n >= 1 && LineAt(SplitLines(a), n - 1) != LineAt(SplitLines(b), n - 1)
    ensures NumbersIncrease(LineDiffsOf(a, b))
  {
    var la, lb := SplitLines(a), SplitLines(b);
    DiffsDescribe(la, lb, 1);
    forall n: nat ensures Reports(LineDiffsOf(a, b), n) <==> n >= 1 && LineAt(la, n - 1) != LineAt(lb, n - 1) {
      if n >= 1 && LineAt(la, n - 1) != LineAt(lb, n - 1) {
        DiffsComplete(la, lb, 1, n - 1);
      }
      if Reports(LineDiffsOf(a, b), n) {
        var d :| d in LineDiffsOf(a, b) && d.lineNumber == n;
        assert Describes(d, la, lb, 1);
      }
    }
  }

  /** The list is empty exactly when the files are byte for byte the same. */
  lemma NoDiffsIffEqual(a: Bytes, b: Bytes)
    ensures LineDiffsOf(a, b) == [] <==> a == b
  {
    var la, lb, ds := SplitLines(a), SplitLines(b), LineDiffsOf(a, b);
    if a != b {
      SplitFlatten(a);
      SplitFlatten(b);
      var k := DifferingLine(la, lb);
      DiffsComplete(la, lb, 1, k);
    } else if ds != [] {
      DiffsMeanDifferent(la, lb, 1);
    }
  }

  lemma DiffsMeanDifferent(la: seq<Bytes>, lb: seq<Bytes>, number: nat)
    requires LineDiffs(la, lb, number) != []
    ensures la != lb
  {
    DiffsDescribe(la, lb, number);
    assert Describes(LineDiffs(la, lb, number)[0], la, lb, number);
  }

  lemma DifferingLine(la: seq<Bytes>, lb: seq<Bytes>) returns (k: nat)
    requires la != lb
    ensures LineAt(la, k) != LineAt(lb, k)
  {
    if |la| != |lb| {
      k := if |la| < |lb| then |la| else |lb|;
    } else {
      k :| 0 <= k < |la| && la[k] != lb[k];
    }
  }

  /** From n on the line holds nothing but newlines and carriage returns. */
  predicate OnlyTerminatorsFrom(line: Bytes, n: nat) {
    forall k :: n <= k < |line| ==> IsTerminator(line[k])
  }

  /** The lines differ at most in the newlines and carriage returns at their ends. */
  ghost predicate SameButTerminators(x: Bytes, y: Bytes) {
    exists n: nat :: n <= |x| && n <= |y| && x[..n] == y[..n] && OnlyTerminatorsFrom(x, n) && OnlyTerminatorsFrom(y, n)
  }

  /** Terminators at the end do not count. */
  lemma {:induction false} TrimIgnoresEnd(line: Bytes, n: nat)
    requires n <= |line| && OnlyTerminatorsFrom(line, n)
    ensures TrimLength(line) == TrimLength(line[..n])
    decreases |line|
  {
    if n < |line| {
      var shorter := line[..|line| - 1];
      TrimIgnoresEnd(shorter, n);
      assert shorter[..n] == line[..n];
    } else {
      assert line[..n] == line;
    }
  }

  /** The bytes of a line; a missing line has none. */
  function Raw(line: Option<Bytes>): Bytes {
    if line.None? then [] else line.value
  }

  /** Two lines are stored as the same text exactly if they differ at most in their terminators. */
  lemma SameTextIff(x: Option<Bytes>, y: Option<Bytes>)
    ensures Text(x) == Text(y) <==> SameButTerminators(Raw(x), Raw(y))
  {
    var r, s := Raw(x), Raw(y);
    assert Text(x) == r[..TrimLength(r)] && Text(y) == s[..TrimLength(s)];
    if Text(x) == Text(y) {
      assert |Text(x)| == TrimLength(r) && |Text(y)| == TrimLength(s);
      assert OnlyTerminatorsFrom(r, TrimLength(r)) && OnlyTerminatorsFrom(s, TrimLength(r));
    }
    if SameButTerminators(r, s) {
      var n: nat :| n <= |r| && n <= |s| && r[..n] == s[..n] && OnlyTerminatorsFrom(r, n) && OnlyTerminatorsFrom(s, n);
      TrimIgnoresEnd(r, n);
      TrimIgnoresEnd(s, n);
      var t := TrimLength(r);
      assert r[..t] == r[..n][..t] && s[..t] == s[..n][..t];
    }
  }

  /** Exactly when a reported pair looks the same on both sides, in any two files: the two lines differ
      only in the newlines and carriage returns at their ends, a missing line counting as empty. */
  lemma PairLooksIdenticalIff(a: Bytes, b: Bytes, d: LineDiff)
    requires d in LineDiffsOf(a, b)
    ensures d.lineNumber >= 1
    ensures var x, y := LineAt(SplitLines(a), d.lineNumber - 1), LineAt(SplitLines(b), d.lineNumber - 1);
            x != y && (d.left == d.right <==> SameButTerminators(Raw(x), Raw(y)))
  {
    var la, lb := SplitLines(a), SplitLines(b);
    DiffsDescribe(la, lb, 1);
    assert Describes(d, la, lb, 1);
    SameTextIff(LineAt(la, d.lineNumber - 1), LineAt(lb, d.lineNumber - 1));
  }

  /** The files have a line that differs, but only in its terminators. */
  ghost predicate HasTerminatorOnlyChange(a: Bytes, b: Bytes) {
    exists k: nat ::
      var x, y := LineAt(SplitLines(a), k), LineAt(SplitLines(b), k);
      x != y && SameButTerminators(Raw(x), Raw(y))
  }

  /** Which files have such a pair in their report. */
  lemma SomePairLooksIdenticalIff(a: Bytes, b: Bytes)
    ensures (exists d :: d in LineDiffsOf(a, b) && d.left == d.right) <==> HasTerminatorOnlyChange(a, b)
  {
    var la, lb, ds := SplitLines(a), SplitLines(b), LineDiffsOf(a, b);
    if d :| d in ds && d.left == d.right {
      PairLooksIdenticalIff(a, b, d);
      assert LineAt(la, d.lineNumber - 1) != LineAt(lb, d.lineNumber - 1);
    }
    if HasTerminatorOnlyChange(a, b) {
      var k: nat :| LineAt(la, k) != LineAt(lb, k) && SameButTerminators(Raw(LineAt(la, k)), Raw(LineAt(lb, k)));
      DiffsComplete(la, lb, 1, k);
      var d :| d in ds && d.lineNumber == 1 + k;
      PairLooksIdenticalIff(a, b, d);
    }
  }

  /** Lines are compared with their terminators and stored without: a reported pair can look the
      same on both sides, here in two files of equal size. */
  lemma PairCanLookIdentical()
    ensures LineDiff(1, [120], [120]) in LineDiffsOf([120, RETURN, NEWLINE], [120, NEWLINE, NEWLINE])
  {
    var a: Bytes, b: Bytes := [120, RETURN, NEWLINE], [120, NEWLINE, NEWLINE];
    var first: Bytes := [120, NEWLINE];
    assert FirstLine(a[2..]) == 1 && FirstLine(a[1..]) == 2 && FirstLine(a) == 3;
    assert FirstLine(b[1..]) == 1 && FirstLine(b) == 2;
    assert SplitLines(a)[0] == a && SplitLines(b)[0] == first;
    assert a[..2] == [120, RETURN] && a[..2][..1] == [120] && first[..1] == [120];
    assert TrimLength([120]) == 1;
    assert a == [120, RETURN, NEWLINE] && TrimLength(a) == TrimLength(a[..2]);
    assert TrimLength([120, RETURN]) == 1 && TrimLength(first) == 1;
    assert Head(SplitLines(a)) == Some(a) && Head(SplitLines(b)) == Some(first);
    assert a[..1] == [120] && Text(Some(a)) == [120] && Text(Some(first)) == [120];
    assert DiffOf(Some(a), Some(first), 1)[0] == LineDiff(1, [120], [120]);
  }

  /** The capacity of a vector after one more push: it starts at 8 and doubles. */
  function RoomAfter(count: nat, capacity: nat): nat {
    if count < capacity then capacity else if capacity == 0 then 8 else 2 * capacity
  }

  class LineDiffVector {
    var items: array<LineDiff>
    var count: nat

    ghost predicate Valid()
      reads this
    {
      count <= items.Length
    }

    function Contents(): seq<LineDiff>
      requires Valid()
      reads this, items
    {
      items[..count]
    }

    constructor ()
      ensures Valid() && fresh(items) && items.Length == 0 && Contents() == []
    {
      items := new LineDiff[0];
      count := 0;
    }

    /** `line_diff_vector_push`. `copyOk` covers the copies of both texts. */
    method Push(diff: LineDiff, growOk: bool, copyOk: bool) returns (rc: Errno)
      requires Valid()
      modifies this, items
      ensures Valid() && (items == old(items) || fresh(items))
      ensures rc == if copyOk && (growOk || old(count) < old(items.Length)) then OK else ENOMEM
      ensures rc == OK ==> items.Length == RoomAfter(old(count), old(items.Length))
      ensures Contents() == if rc == OK then old(Contents()) + [diff] else old(Contents())
    {
      if count == items.Length {
        if !growOk {
          return ENOMEM;
        }
        var capacity := if items.Length == 0 then 8 else 2 * items.Length;
        var grown := new LineDiff[capacity];
        for i := 0 to count
          invariant items == old(items) && count == old(count) && items[..] == old(items[..])
          invariant grown[..i] == items[..i]
        {
          grown[i] := items[i];
        }
        assert grown[..count] == items[..count];
        items := grown;
      }
      if !copyOk {
        return ENOMEM;
      }
      items[count] := diff;
      count := count + 1;
      rc := OK;
    }
  }

  /** A file as `fopen` and `getline` present it; `fails(k)` is the error the k-th `getline` on it
      gives, or 0. */
  datatype TextFile = TextFile(openError: Errno, content: Bytes, fails: nat -> Errno)

  ghost predicate TextUnfailing(f: TextFile) {
    f.openError == OK && forall k :: f.fails(k) == OK
  }

  /** `getline` at `pos`, where `ferror` is looked at only when nothing was read. */
  method GetLine(f: TextFile, k: nat, pos: nat) returns (rc: Errno, line: Option<Bytes>, next: nat)
    requires pos <= |f.content|
    ensures pos <= next <= |f.content| && rc == f.fails(k)
    ensures rc == OK ==>
              line == Head(SplitLines(f.content[pos..])) &&
              SplitLines(f.content[next..]) == Tail(SplitLines(f.content[pos..]))
    ensures rc == OK && line.Some? ==> next > pos
    ensures rc == OK && line.None? ==> next == pos
  {
    hide FirstLine;
    if f.fails(k) != OK {
      return f.fails(k), None, pos;
    }
    if pos == |f.content| {
      return OK, None, pos;
    }
    var n := FirstLine(f.content[pos..]);
    assert f.content[pos..][n..] == f.content[pos + n..];
    return OK, Some(f.content[pos..][..n]), pos + n;
  }

  lemma WholeText(f: TextFile)
    ensures f.content[0..] == f.content
  {
  }

  /** What the loop has reported and what lies ahead make up the whole list. */
  ghost predicate Pending(a: Bytes, b: Bytes, posA: nat, posB: nat, number: nat, found: seq<LineDiff>)
    requires posA <= |a| && posB <= |b|
  {
    LineDiffsOf(a, b) == found + LineDiffs(SplitLines(a[posA..]), SplitLines(b[posB..]), number)
  }

  lemma PendingStart(a: Bytes, b: Bytes)
    ensures Pending(a, b, 0, 0, 1, [])
  {
    assert a[0..] == a && b[0..] == b;
  }

  lemma PendingStep(a: Bytes, b: Bytes, posA: nat, posB: nat, number: nat, found: seq<LineDiff>, x: Option<Bytes>,
                    y: Option<Bytes>, nextA: nat, nextB: nat)
    requires posA <= nextA <= |a| && posB <= nextB <= |b| && Pending(a, b, posA, posB, number, found)
    requires x == Head(SplitLines(a[posA..])) && SplitLines(a[nextA..]) == Tail(SplitLines(a[posA..]))
    requires y == Head(SplitLines(b[posB..])) && SplitLines(b[nextB..]) == Tail(SplitLines(b[posB..]))
    ensures x.None? && y.None? ==> LineDiffsOf(a, b) == found
    ensures x.Some? || y.Some? ==> Pending(a, b, nextA, nextB, number + 1, found + DiffOf(x, y, number))
  {
    var la, lb := SplitLines(a[posA..]), SplitLines(b[posB..]);
    if x.Some? || y.Some? {
      Regroup(found, DiffOf(x, y, number), LineDiffs(Tail(la), Tail(lb), number + 1));
    }
  }

  lemma Regroup(r: seq<LineDiff>, s: seq<LineDiff>, t: seq<LineDiff>)
    ensures r + (s + t) == (r + s) + t
  {
  }

  /** Stores the difference of two lines, if there is one. */
  method NoteDifference(x: Option<Bytes>, y: Option<Bytes>, number: nat, lines: LineDiffVector, mem: (bool, bool))
    returns (rc: Errno)
    requires lines.Valid()
    modifies lines, lines.items
    ensures lines.Valid() && (lines.items == old(lines.items) || fresh(lines.items))
    ensures rc == if x == y || (mem.1 && (mem.0 || old(lines.count) < old(lines.items.Length))) then OK else ENOMEM
    ensures rc == OK ==> lines.Contents() == old(lines.Contents()) + DiffOf(x, y, number)
    ensures rc == OK ==> lines.count == old(lines.count) + if x == y then 0 else 1
    ensures rc == OK ==> lines.items.Length == if x == y then old(lines.items.Length)
                                               else RoomAfter(old(lines.count), old(lines.items.Length))
  {
    rc := OK;
    if Differ(x, y) {
      var left := StoredText(x);
      var right := StoredText(y);
      rc := lines.Push(LineDiff(number, left, right), mem.0, mem.1);
    }
  }

  /** The error that ends the comparison of lines from line `number` on, or 0: that of a `getline`, or ENOMEM
      when a difference cannot be stored in a vector with so many entries and so much room. */
  function LinesFault(f: TextFile, g: TextFile, la: seq<Bytes>, lb: seq<Bytes>, number: nat, count: nat, room: nat,
                      mem: nat -> (bool, bool)): Errno
    requires number >= 1
    decreases |la| + |lb|
  {
    if f.fails(number - 1) != OK then f.fails(number - 1)
    else if g.fails(number - 1) != OK then g.fails(number - 1)
    else if la == [] && lb == [] then OK
    else if Head(la) == Head(lb) then LinesFault(f, g, Tail(la), Tail(lb), number + 1, count, room, mem)
    else if !mem(number).1 || !(mem(number).0 || count < room) then ENOMEM
    else LinesFault(f, g, Tail(la), Tail(lb), number + 1, count + 1, RoomAfter(count, room), mem)
  }

  /** The code of the whole comparison of lines, with a vector that has no room yet. */
  function TextFault(f: TextFile, g: TextFile, mem: nat -> (bool, bool)): Errno {
    if f.openError != OK then f.openError
    else if g.openError != OK then g.openError
    else LinesFault(f, g, SplitLines(f.content), SplitLines(g.content), 1, 0, 0, mem)
  }

  /** The `getline` calls number i and the copies of line i that a comparison from line `number` on makes. */
  ghost predicate LinesServed(f: TextFile, g: TextFile, la: seq<Bytes>, lb: seq<Bytes>, number: nat)
  {
    forall i: nat :: number - 1 <= i && (i - (number - 1) <= |la| || i - (number - 1) <= |lb|) ==>
      f.fails(i) == OK && g.fails(i) == OK
  }

  /** Without an error every `getline` up to the end of both files has succeeded and every line that differs
      has been copied. */
  lemma {:induction false} NoLinesFault(f: TextFile, g: TextFile, la: seq<Bytes>, lb: seq<Bytes>, number: nat,
                                        count: nat, room: nat, mem: nat -> (bool, bool))
    requires number >= 1 && LinesFault(f, g, la, lb, number, count, room, mem) == OK
    ensures LinesServed(f, g, la, lb, number)
    ensures forall i: nat :: number <= i && LineAt(la, i - number) != LineAt(lb, i - number) ==> mem(i).1
    decreases |la| + |lb|
  {
    if la != [] || lb != [] {
      if Head(la) == Head(lb) {
        NoLinesFault(f, g, Tail(la), Tail(lb), number + 1, count, room, mem);
      } else {
        NoLinesFault(f, g, Tail(la), Tail(lb), number + 1, count + 1, RoomAfter(count, room), mem);
      }
    }
  }

  /** And there is no error if all of that succeeds and the vector can grow. */
  lemma {:induction false} NoLinesFaultIf(f: TextFile, g: TextFile, la: seq<Bytes>, lb: seq<Bytes>, number: nat,
                                          count: nat, room: nat, mem: nat -> (bool, bool))
    requires number >= 1 && LinesServed(f, g, la, lb, number)
    requires forall i: nat :: number <= i && LineAt(la, i - number) != LineAt(lb, i - number) ==> mem(i) == (true, true)
    ensures LinesFault(f, g, la, lb, number, count, room, mem) == OK
    decreases |la| + |lb|
  {
    assert f.fails(number - 1) == OK && g.fails(number - 1) == OK;
    if la != [] || lb != [] {
      if Head(la) == Head(lb) {
        NoLinesFaultIf(f, g, Tail(la), Tail(lb), number + 1, count, room, mem);
      } else {
        assert LineAt(la, 0) != LineAt(lb, 0) && mem(number) == (true, true);
        NoLinesFaultIf(f, g, Tail(la), Tail(lb), number + 1, count + 1, RoomAfter(count, room), mem);
      }
    }
  }

  lemma UnfailingLines(f: TextFile, g: TextFile, room: nat, mem: nat -> (bool, bool))
    ensures TextUnfailing(f) && TextUnfailing(g) && (forall k :: mem(k) == (true, true)) ==>
              f.openError == OK && g.openError == OK &&
              LinesFault(f, g, SplitLines(f.content), SplitLines(g.content), 1, 0, room, mem) == OK
  {
    if TextUnfailing(f) && TextUnfailing(g) && forall k :: mem(k) == (true, true) {
      NoLinesFaultIf(f, g, SplitLines(f.content), SplitLines(g.content), 1, 0, room, mem);
    }
  }

  /** `detect_line_differences`, into an empty vector. `mem(i)` says whether the array can grow
      and the texts can be copied when line i is pushed. */
  method DetectLineDifferences(a: TextFile, b: TextFile, lines: LineDiffVector, mem: nat -> (bool, bool))
    returns (rc: Errno)
    requires lines.Valid() && lines.Contents() == []
    modifies lines, lines.items
    ensures lines.Valid() && (lines.items == old(lines.items) || fresh(lines.items))
    ensures rc == OK ==> lines.Contents() == LineDiffsOf(a.content, b.content)
    ensures old(lines.items.Length) == 0 ==> rc == TextFault(a, b, mem)
    ensures TextUnfailing(a) && TextUnfailing(b) && (forall k :: mem(k) == (true, true)) ==> rc == OK
  {
    hide Pending, LineDiffsOf, SplitLines, DiffOf, TextUnfailing;
    WholeText(a);
    WholeText(b);
    ghost var fault := LinesFault(a, b, SplitLines(a.content), SplitLines(b.content), 1, 0, lines.items.Length, mem);
    UnfailingLines(a, b, lines.items.Length, mem);
    if a.openError != OK { return a.openError; }
    if b.openError != OK { return b.openError; }
    var posA, posB, number := 0, 0, 1;
    PendingStart(a.content, b.content);
    while true
      invariant posA <= |a.content| && posB <= |b.content| && number >= 1
      invariant lines.Valid() && (lines.items == old(lines.items) || fresh(lines.items))
      invariant Pending(a.content, b.content, posA, posB, number, lines.Contents())
      invariant fault == LinesFault(a, b, SplitLines(a.content[posA..]), SplitLines(b.content[posB..]), number,
                                    lines.count, lines.items.Length, mem)
      decreases |a.content| - posA + |b.content| - posB
    {
      var lineA, lineB, nextA, nextB;
      rc, lineA, nextA := GetLine(a, number - 1, posA);
      if rc != OK {
        break;
      }
      rc, lineB, nextB := GetLine(b, number - 1, posB);
      if rc != OK {
        break;
      }
      PendingStep(a.content, b.content, posA, posB, number, lines.Contents(), lineA, lineB, nextA, nextB);
      if lineA.None? && lineB.None? {
        break;
      }
      rc := NoteDifference(lineA, lineB, number, lines, mem(number));
      if rc != OK {
        break;
      }
      posA, posB, number := nextA, nextB, number + 1;
    }
  }

  /** The comparison of lengths, then of bytes. A missing line has length -1. */
  predicate Differ(x: Option<Bytes>, y: Option<Bytes>)
    ensures Differ(x, y) <==> x != y
  {
    var lenX := if x.None? then -1 else |x.value|;
    var lenY := if y.None? then -1 else |y.value|;
    lenX != lenY || (lenX >= 0 && x.value != y.value)
  }

  method StoredText(line: Option<Bytes>) returns (text: Bytes)
    ensures text == Text(line)
  {
    if line.None? {
      return [];
    }
    var len := TrimLineLength(line.value);
    return line.value[..len];
  }
}
