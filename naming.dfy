/**
 * String formats shared by the serial generator, the file writer and the
 * uploader: zero-padded decimal numbers, `<serial>.json` file names,
 * `<temp_dir>/<filename>` paths and the `dt=<date>/` object-key prefix.
 */
module Naming {
  import opened Common

  /** Root of the per-date scratch directories. */
  const ScratchRoot := "/mnt/sm-disk/"
  const JsonSuffix := ".json"

  function Pow10(k: nat): (r: nat)
    ensures r >= 1
  {
    if k == 0 then 1 else 10 * Pow10(k - 1)
  }

  predicate IsDigit(c: char) { '0' <= c <= '9' }

  predicate AllDigits(s: string) { forall i :: 0 <= i < |s| ==> IsDigit(s[i]) }

  function DigitChar(d: nat): (c: char)
    requires d < 10
    ensures IsDigit(c) && (c - '0') as nat == d
  {
    (d + '0' as nat) as char
  }

  /**
   * The decimal text of `n` left-padded with zeros to `w` characters, as
   * Python's `f"{n:0{w}d}"` renders a non-negative `n` that has at most `w`
   * digits.
   */
  function ZeroPad(n: nat, w: nat): (r: string)
    requires n < Pow10(w)
    ensures |r| == w && AllDigits(r)
  {
    if w == 0 then "" else ZeroPad(n / 10, w - 1) + [DigitChar(n % 10)]
  }

  /** The number a string of decimal digits denotes (leading zeros allowed). */
  function DecimalValue(s: string): nat
    requires AllDigits(s)
  {
    if s == [] then 0
    else 10 * DecimalValue(s[..|s| - 1]) + (s[|s| - 1] - '0') as nat
  }

  /** Reading a zero-padded number back gives the number: padding loses nothing. */
  lemma {:induction false} ZeroPadRoundTrip(n: nat, w: nat)
    requires n < Pow10(w)
    ensures DecimalValue(ZeroPad(n, w)) == n
  {
    if w > 0 {
      var r := ZeroPad(n, w);
      assert r[..|r| - 1] == ZeroPad(n / 10, w - 1);
      ZeroPadRoundTrip(n / 10, w - 1);
    }
  }

  /** `f"{serial}.json"`: the name of one meter's file for one day. */
  function FileName(serial: string): (r: string)
    ensures |r| == |serial| + 5
  {
    serial + JsonSuffix
  }

  /** The serial a `.json` file name was built from, if it is one. */
  function SerialOfFileName(name: string): (r: Option<string>)
    ensures r.Some? ==> |r.value| + 5 == |name|
  {
    if |name| >= 5 && name[|name| - 5..] == JsonSuffix then Some(name[..|name| - 5]) else None
  }

  lemma FileNameRoundTrip(serial: string)
    ensures SerialOfFileName(FileName(serial)) == Some(serial)
  {
    var name := FileName(serial);
    assert name[|name| - 5..] == JsonSuffix;
    assert name[..|name| - 5] == serial;
  }

  /** Two meters share a file name only if they share a serial. */
  lemma FileNameInjective(a: string, b: string)
    ensures FileName(a) == FileName(b) ==> a == b
  {
    FileNameRoundTrip(a);
    FileNameRoundTrip(b);
  }

  /** `f"/mnt/sm-disk/{date_str}"`: the scratch directory of one day. */
  function TempDir(dateStr: string): (r: string)
    ensures |r| == |ScratchRoot| + |dateStr|
    ensures r[..|ScratchRoot|] == ScratchRoot && r[|ScratchRoot|..] == dateStr
  {
    ScratchRoot + dateStr
  }

  /** `f"{temp_dir}/{filename}"`. */
  function FilePath(dir: string, name: string): (r: string)
    ensures |r| == |dir| + 1 + |name|
  {
    dir + "/" + name
  }

  /** Within one directory, distinct names give distinct paths. */
  lemma FilePathInjective(dir: string, a: string, b: string)
    ensures FilePath(dir, a) == FilePath(dir, b) ==> a == b
  {
    if FilePath(dir, a) == FilePath(dir, b) {
      assert FilePath(dir, a)[|dir| + 1..] == a;
      assert FilePath(dir, b)[|dir| + 1..] == b;
    }
  }

  /** `f"dt={date_str}/"`: the key prefix every object of one day is stored under. */
  function BlobPrefix(dateStr: string): (r: string)
    ensures |r| == |dateStr| + 4 && r[..3] == "dt=" && r[|r| - 1] == '/'
    ensures r[3..|r| - 1] == dateStr
  {
    "dt=" + dateStr + "/"
  }

  /**
   * The key the bulk uploader gives a local file: the prefix followed by
   * the file's name relative to the source directory.
   */
  function ObjectKey(dateStr: string, name: string): (r: string)
    ensures |r| == |dateStr| + 4 + |name|
  {
    BlobPrefix(dateStr) + name
  }

  /** The date and the file name can be read back from an object key. */
  lemma ObjectKeyParts(dateStr: string, name: string)
    ensures var k := ObjectKey(dateStr, name);
      k[..3] == "dt=" && k[3..|dateStr| + 3] == dateStr
      && k[|dateStr| + 3] == '/' && k[|dateStr| + 4..] == name
  {
  }
}
