/** Values shared by every part of the comparer (include/common.h), the error numbers the
    code returns, and the order `strcmp` puts on C strings. */
module Common {

  type byte = x: int | 0 <= x < 256

  /** A C string without its terminator, or the bytes of a file. */
  type Bytes = seq<byte>

  type Path = Bytes

  /** An errno value; 0 is success. The numbers are those of Linux. */
  type Errno = int

  const OK: Errno := 0
  const ENOENT: Errno := 2
  const ENOMEM: Errno := 12
  const ECANCELED: Errno := 125

  const SLASH: byte := 47

  /** A C string holds no terminator before its end. */
  predicate IsCString(s: Bytes) {
    forall i :: 0 <= i < |s| ==> s[i] != 0
  }

  datatype Option<+T> = None | Some(value: T)

  datatype ChangeType = Unchanged | Modified | Added | Removed

  datatype DetailKind = NoDetail | Lines | SizeChanged | BinaryChanged | OnlyInTarget | OnlyInSource

  datatype LineDiff = LineDiff(lineNumber: nat, left: Bytes, right: Bytes)

  datatype ChangeRecord = ChangeRecord(
    path: Path,
    change: ChangeType,
    detail: DetailKind,
    sizeA: nat,
    sizeB: nat,
    lineDiffs: seq<LineDiff>)

  datatype Config = Config(
    rootA: Path,
    rootB: Path,
    includeLines: bool,
    includeUnchanged: bool,
    hashBufferSize: nat,
    verifyEqualHashes: bool)

  /** `strcmp`: bytes compare as unsigned, a proper prefix comes first. */
  function StrCmp(a: Path, b: Path): (c: int)
    ensures c == 0 <==> a == b
  {
    if a == [] && b == [] then 0
    else if a == [] then -1
    else if b == [] then 1
    else if a[0] < b[0] then -1
    else if a[0] > b[0] then 1
    else
      assert a == [a[0]] + a[1..] && b == [b[0]] + b[1..];
      StrCmp(a[1..], b[1..])
  }

  predicate Before(a: Path, b: Path) {
    StrCmp(a, b) < 0
  }

  /** One path is before another exactly if it is a proper prefix of it or has, after a common part, the
      smaller byte. */
  lemma {:induction false} BeforeIff(a: Path, b: Path)
    ensures Before(a, b) <==>
              exists k: nat :: k <= |a| && k < |b| && a[..k] == b[..k] && (k == |a| || a[k] < b[k])
  {
    if a != [] && b != [] && a[0] == b[0] {
      BeforeIff(a[1..], b[1..]);
      if Before(a, b) {
        var k: nat :| k <= |a| - 1 && k < |b| - 1 && a[1..][..k] == b[1..][..k] &&
                      (k == |a| - 1 || a[1..][k] < b[1..][k]);
        assert a[..k + 1] == [a[0]] + a[1..][..k] && b[..k + 1] == [b[0]] + b[1..][..k];
      }
      if k: nat :| k <= |a| && k < |b| && a[..k] == b[..k] && (k == |a| || a[k] < b[k]) {
        assert a[1..][..k - 1] == a[..k][1..] && b[1..][..k - 1] == b[..k][1..];
      }
    } else if Before(a, b) {
      assert a[..0] == b[..0];
    }
  }

  lemma {:induction false} StrCmpAntisymmetric(a: Path, b: Path)
    ensures StrCmp(a, b) < 0 <==> StrCmp(b, a) > 0
  {
    if a != [] && b != [] && a[0] == b[0] {
      StrCmpAntisymmetric(a[1..], b[1..]);
    }
  }

  lemma {:induction false} BeforeTransitive(a: Path, b: Path, c: Path)
    requires Before(a, b) && Before(b, c)
    ensures Before(a, c)
  {
    if a != [] && a[0] == b[0] && b[0] == c[0] {
      BeforeTransitive(a[1..], b[1..], c[1..]);
    }
  }
}
