/**
 * The upload filter: a file is accepted when it has an extension (the
 * text after its last dot) that reads "csv" ignoring case.
 */
module Upload {

  /** The lower-case form of an ASCII letter; every other character unchanged. */
  function LowerChar(ch: char): (r: char)
    ensures 'A' <= ch <= 'Z' ==> r as int == ch as int + 32
    ensures !('A' <= ch <= 'Z') ==> r == ch
  {
    if 'A' <= ch <= 'Z' then (ch as int + 32) as char else ch
  }

  function Lower(s: string): (r: string)
    ensures |r| == |s| && forall i :: 0 <= i < |s| ==> r[i] == LowerChar(s[i])
  {
    seq(|s|, i requires 0 <= i < |s| => LowerChar(s[i]))
  }

  /** The position of the last dot in `s`, or -1 when there is none. */
  function LastDot(s: string): (k: int)
    ensures -1 <= k < |s|
    ensures k >= 0 ==> s[k] == '.'
    ensures forall j :: k < j < |s| ==> s[j] != '.'
    decreases |s|
  {
    if s == [] then -1
    else if s[|s| - 1] == '.' then |s| - 1
    else LastDot(s[..|s| - 1])
  }

  /** A name ending in a dot followed by the letters c, s and v, each in either case. */
  predicate EndsInCsv(filename: string) {
    var n := |filename|;
    && n >= 4
    && filename[n - 4] == '.'
    && filename[n - 3] in {'c', 'C'}
    && filename[n - 2] in {'s', 'S'}
    && filename[n - 1] in {'v', 'V'}
  }

  /** The text after the last dot lowers to "csv" exactly when the name ends in `.csv`, in any case. */
  lemma CsvExtensionIff(filename: string)
    ensures (LastDot(filename) >= 0 && Lower(filename[LastDot(filename) + 1..]) == "csv") <==> EndsInCsv(filename)
  {
    var n := |filename|;
    var k := LastDot(filename);
    if k >= 0 && Lower(filename[k + 1..]) == "csv" {
      var ext := filename[k + 1..];
      assert |ext| == 3;
      assert ext[0] == filename[n - 3] && ext[1] == filename[n - 2] && ext[2] == filename[n - 1];
      assert Lower(ext)[0] == 'c' && Lower(ext)[1] == 's' && Lower(ext)[2] == 'v';
    }
    if EndsInCsv(filename) {
      assert k == n - 4;
      assert Lower(filename[k + 1..]) == "csv";
    }
  }

  /**
   * The upload filter: the name has a dot and its text after the last dot
   * lowers to "csv"; that is, it ends in a dot followed by c, s and v,
   * each in either case.
   */
  function AllowedFile(filename: string): (accepted: bool)
    ensures accepted <==> EndsInCsv(filename)
  {
    CsvExtensionIff(filename);
    var k := LastDot(filename);
    k >= 0 && Lower(filename[k + 1..]) == "csv"
  }
}
