/** The object paths an upload writes to (src/hfs_file_operation.c,
    lines 100-123 and 178-179), built from the container name, the file
    name and the segment index, and the decimal rendering of that index. */
module SegmentPaths {

  /** The directory part segments are stored under. */
  const SEGMENTS_DIR: string := "segments"

  predicate IsDigits(s: string)
  {
    forall i :: 0 <= i < |s| ==> '0' <= s[i] <= '9'
  }

  function Digit(d: nat): (c: char)
    requires d < 10
    ensures '0' <= c <= '9'
  {
    (48 + d) as char
  }

  /** A count written in decimal, as printf's "%zu" writes it. */
  function Decimal(n: nat): (s: string)
    ensures |s| >= 1 && IsDigits(s)
  {
    if n < 10 then [Digit(n)] else Decimal(n / 10) + [Digit(n % 10)]
  }

  /** The value of a string of decimal digits. */
  function ParseDecimal(s: string): nat
    requires IsDigits(s)
  {
    if s == [] then 0 else ParseDecimal(s[..|s| - 1]) * 10 + (s[|s| - 1] as int - 48)
  }

  /** Reading the decimal rendering back gives the count. */
  lemma {:induction false} DecimalRoundTrip(n: nat)
    ensures ParseDecimal(Decimal(n)) == n
  {
    var s := Decimal(n);
    if n >= 10 {
      DecimalRoundTrip(n / 10);
      assert s[..|s| - 1] == Decimal(n / 10);
    }
  }

  /** Different counts are written differently. */
  lemma DecimalInjective(m: nat, n: nat)
    requires Decimal(m) == Decimal(n)
    ensures m == n
  {
    DecimalRoundTrip(m);
    DecimalRoundTrip(n);
  }

  /** "/%s%s": the object of a large file's manifest, and of an empty file. */
  function ObjectPath(container: string, fname: string): string
  {
    "/" + container + fname
  }

  /** "/%s/%s": the object of a file small enough to fit one segment. */
  function SmallFilePath(container: string, fname: string): string
  {
    "/" + container + "/" + fname
  }

  /** "/%s/%s/%s": the value of the X-Object-Manifest header, the prefix
      under which the manifest's segments are to be found. */
  function ManifestPrefix(container: string, fname: string): string
  {
    "/" + container + "/" + fname + "/" + SEGMENTS_DIR
  }

  /** "/%s/%s%s/%zu": the path of segment `n` as the source builds it,
      with no separator between the file name and the segments directory. */
  function SegmentPathAsWritten(container: string, fname: string, n: nat): string
  {
    "/" + container + "/" + fname + SEGMENTS_DIR + "/" + Decimal(n)
  }

  /** "/%s/%s/%s/%zu": the path of segment `n`, with the separator
      between the file name and the segments directory restored. */
  function SegmentPath(container: string, fname: string, n: nat): string
  {
    "/" + container + "/" + fname + "/" + SEGMENTS_DIR + "/" + Decimal(n)
  }

  /** As written, the manifest prefix is a prefix of no segment path: where
      the prefix has '/' after the file name, the segment path has 's'. */
  lemma ManifestPrefixMissesSegments(container: string, fname: string, n: nat)
    ensures !(ManifestPrefix(container, fname) <= SegmentPathAsWritten(container, fname, n))
  {
    var head := "/" + container + "/" + fname;
    assert ManifestPrefix(container, fname) == head + "/" + SEGMENTS_DIR;
    assert SegmentPathAsWritten(container, fname, n) == head + SEGMENTS_DIR + "/" + Decimal(n);
    assert ManifestPrefix(container, fname)[|head|] == '/';
    assert SegmentPathAsWritten(container, fname, n)[|head|] == 's';
  }

  /** With the separator restored, every segment path lies under the
      manifest prefix. */
  lemma ManifestPrefixCoversSegments(container: string, fname: string, n: nat)
    ensures ManifestPrefix(container, fname) <= SegmentPath(container, fname, n)
  {
    var prefix := ManifestPrefix(container, fname);
    assert SegmentPath(container, fname, n) == prefix + ("/" + Decimal(n));
  }

  /** Different segments of one file go to different objects. */
  lemma SegmentPathInjective(container: string, fname: string, m: nat, n: nat)
    requires SegmentPath(container, fname, m) == SegmentPath(container, fname, n)
    ensures m == n
  {
    var head := ManifestPrefix(container, fname) + "/";
    assert SegmentPath(container, fname, m) == head + Decimal(m);
    assert SegmentPath(container, fname, n) == head + Decimal(n);
    assert Decimal(m) == SegmentPath(container, fname, m)[|head|..];
    assert Decimal(n) == SegmentPath(container, fname, n)[|head|..];
    DecimalInjective(m, n);
  }
}
